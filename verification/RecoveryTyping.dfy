/**
 What may be typed for a recovery key: which texts read as a display.
 */
module RecoveryTyping {
  import opened Numerals
  import opened RecoveryCodec

  // What may be typed for a letter

  /** A typed character stands for a letter of the alphabet: the letter itself in
      either case, O for zero, I or L for one. */
  predicate StandsFor(t: char, letter: char) {
    || t == letter
    || ('A' <= letter <= 'Z' && t as int == letter as int + 32)
    || (letter == '0' && t in "Oo")
    || (letter == '1' && t in "IiLl")
  }

  /** A letter that is read as itself: a digit, or a capital but I, L and O. */
  predicate Unaliased(letter: char) {
    '0' <= letter <= '9' || ('A' <= letter <= 'Z' && letter != 'I' && letter != 'L' && letter != 'O')
  }

  lemma AliasStandsFor(t: char, letter: char)
    requires Unaliased(letter)
    ensures Alias(Upper(t)) == letter <==> StandsFor(t, letter)
  {
  }

  lemma LetterIsUnaliased(i: nat)
    requires i < 32
    ensures Unaliased(CROCKFORD[i])
  {
    LetterCode(i);
  }

  lemma LettersDiffer(i: nat, j: nat)
    requires i < 32 && j < 32
    ensures CROCKFORD[i] == CROCKFORD[j] <==> i == j
  {
    LetterCode(i);
    LetterCode(j);
  }

  /** A character reads as exactly the letters it stands for, so a U and anything
      else reads as none. */
  lemma ReadsExactly(check: seq<Byte> -> seq<Byte>, t: char, i: nat)
    requires i < 32
    ensures Crockford(check).SymbolValue(t) == Some(i) <==> StandsFor(t, CROCKFORD[i])
  {
    LetterIsUnaliased(i);
    AliasStandsFor(t, CROCKFORD[i]);
    var r := Position(CROCKFORD, Alias(Upper(t)), 0);
    if r.Some? {
      LettersDiffer(i, r.value);
    }
  }

  /** A text without its dashes and spaces. */
  function Plain(text: string): string {
    if text == [] then []
    else Plain(text[..|text| - 1]) + if text[|text| - 1] == '-' || text[|text| - 1] == ' ' then [] else [text[|text| - 1]]
  }

  predicate TypedFor(plain: string, letters: string) {
    |plain| == |letters| && forall i | 0 <= i < |plain| :: StandsFor(plain[i], letters[i])
  }

  lemma {:induction false} SymbolsExactly(check: seq<Byte> -> seq<Byte>, text: string, symbols: seq<int>)
    requires DigitsIn(symbols, 32)
    ensures Crockford(check).Symbols(text) == Some(symbols) <==> TypedFor(Plain(text), Crockford(check).Letters(symbols))
  {
    var k := Crockford(check);
    if text != [] {
      var front, t := text[..|text| - 1], text[|text| - 1];
      if Separator(t) {
        SymbolsExactly(check, front, symbols);
      } else if symbols != [] {
        var n := |symbols| - 1;
        SymbolsExactly(check, front, symbols[..n]);
        ReadsExactly(check, t, symbols[n]);
        assert symbols == symbols[..n] + [symbols[n]];
        assert k.Letters(symbols) == k.Letters(symbols[..n]) + [CROCKFORD[symbols[n]]];
        LastTyped(Plain(front), t, k.Letters(symbols[..n]), CROCKFORD[symbols[n]]);
      }
    }
  }

  lemma LastTyped(plain: string, t: char, letters: string, letter: char)
    ensures TypedFor(plain + [t], letters + [letter]) <==> TypedFor(plain, letters) && StandsFor(t, letter)
  {
    if TypedFor(plain + [t], letters + [letter]) {
      forall i | 0 <= i < |plain| ensures StandsFor(plain[i], letters[i]) {
        assert (plain + [t])[i] == plain[i] && (letters + [letter])[i] == letters[i];
      }
      assert (plain + [t])[|plain|] == t && (letters + [letter])[|letters|] == letter;
    }
  }

  /** A text normalises to a display exactly when, without dashes and spaces, each
      character stands for the display's letter at that place. */
  lemma NormalisesExactly(check: seq<Byte> -> seq<Byte>, text: string, entropy: seq<Byte>)
    requires forall e :: |check(e)| == CHECK_BYTES
    ensures Crockford(check).Normal(text) == Some(Crockford(check).Display(entropy)) <==>
            TypedFor(Plain(text), Crockford(check).Display(entropy))
  {
    var k := Crockford(check);
    CrockfordIsLawful(check);
    SymbolsExactly(check, text, k.Spelling(entropy));
    LettersRead(k, k.Spelling(entropy));
    if k.Symbols(text).Some? && k.Normal(text) == Some(k.Display(entropy)) {
      LettersRead(k, k.Symbols(text).value);
    }
  }
}
