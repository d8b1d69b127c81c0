/**
 Reading the Latin text back. Two Latin letters that spell one Cyrillic letter are
 read as that letter, so a text is read back as it was exactly when it does not
 hold the two letters of such a spelling side by side.
 */
module SerbianReading {
  import opened Transliteration

  /** The Cyrillic letter of a Latin one; other characters stay. */
  function Azbuka(c: char): char {
    match c
    case 'A' => 'А' case 'B' => 'Б' case 'V' => 'В' case 'G' => 'Г' case 'D' => 'Д' case 'Đ' => 'Ђ'
    case 'E' => 'Е' case 'Ž' => 'Ж' case 'Z' => 'З' case 'I' => 'И' case 'J' => 'Ј' case 'K' => 'К'
    case 'L' => 'Л' case 'M' => 'М' case 'N' => 'Н' case 'O' => 'О' case 'P' => 'П' case 'R' => 'Р'
    case 'S' => 'С' case 'T' => 'Т' case 'Ć' => 'Ћ' case 'U' => 'У' case 'F' => 'Ф' case 'H' => 'Х'
    case 'C' => 'Ц' case 'Č' => 'Ч' case 'Š' => 'Ш'
    case 'a' => 'а' case 'b' => 'б' case 'v' => 'в' case 'g' => 'г' case 'd' => 'д' case 'đ' => 'ђ'
    case 'e' => 'е' case 'ž' => 'ж' case 'z' => 'з' case 'i' => 'и' case 'j' => 'ј' case 'k' => 'к'
    case 'l' => 'л' case 'm' => 'м' case 'n' => 'н' case 'o' => 'о' case 'p' => 'п' case 'r' => 'р'
    case 's' => 'с' case 't' => 'т' case 'ć' => 'ћ' case 'u' => 'у' case 'f' => 'ф' case 'h' => 'х'
    case 'c' => 'ц' case 'č' => 'ч' case 'š' => 'ш'
    case _ => c
  }

  datatype Option<+T> = None | Some(value: T)

  /** The letter that two Latin letters spell together. */
  function Together(a: char, b: char): Option<char> {
    if a == 'L' && (b == 'j' || b == 'J') then Some('Љ')
    else if a == 'N' && (b == 'j' || b == 'J') then Some('Њ')
    else if a == 'D' && (b == 'ž' || b == 'Ž') then Some('Џ')
    else if a == 'l' && b == 'j' then Some('љ')
    else if a == 'n' && b == 'j' then Some('њ')
    else if a == 'd' && b == 'ž' then Some('џ')
    else None
  }

  /** Two Cyrillic letters whose Latin spelling looks like that of one. */
  predicate Merge(a: char, b: char) {
    || ((a == 'Л' || a == 'Н') && (b == 'ј' || b == 'Ј')) || (a == 'Д' && (b == 'ж' || b == 'Ж'))
    || ((a == 'л' || a == 'н') && b == 'ј') || (a == 'д' && b == 'ж')
  }

  // Reading, for any alphabet

  /** How single characters and pairs are read, and which letters merge. */
  datatype Reader = Reader(one: char -> char, two: (char, char) -> Option<char>, merge: (char, char) -> bool) {
    /** A character that reading leaves as it is. */
    predicate Plain(c: char) { one(c) == c }
  }

  function Read(r: Reader, s: string): string {
    if s == [] then []
    else if |s| > 1 && r.two(s[0], s[1]).Some? then [r.two(s[0], s[1]).value] + Read(r, s[2..])
    else [r.one(s[0])] + Read(r, s[1..])
  }

  /** A character can be spelled so. */
  predicate Spells(k: Classes, c: char, s: string) {
    || (c in k.capitals && s == k.capitals[c]) || (c in k.letters && s == k.letters[c])
    || (c !in k.letters && s == [c])
  }

  /** A spelling is one letter that reads as the character, or two that do together
      and merge with nothing. */
  predicate ReadsAs(r: Reader, c: char, s: string) {
    || (|s| == 1 && r.one(s[0]) == c)
    || (|s| == 2 && r.two(s[0], s[1]) == Some(c))
  }

  /** Side by side, two spellings look like one letter exactly when they merge. */
  predicate Separates(r: Reader, a: char, s: string, b: char, t: string) {
    && t != ""
    && (|s| == 2 ==> !r.merge(a, b))
    && (|s| == 1 ==> && (r.two(s[0], t[0]).Some? <==> r.merge(a, b))
                     && r.two(s[0], t[0]) != Some(a))
  }

  ghost predicate Fits(k: Classes, r: Reader) {
    && (forall c, s | r.Plain(c) && Spells(k, c, s) :: ReadsAs(r, c, s))
    && (forall a, s, b, t | r.Plain(a) && r.Plain(b) && Spells(k, a, s) && Spells(k, b, t) :: Separates(r, a, s, b, t))
  }

  /** The Latin text from the n-th letter on. */
  function Tail(k: Classes, text: string, n: nat): string
    requires n <= |text|
    decreases |text| - n
  {
    if n == |text| then "" else Spelled(k, text, n) + Tail(k, text, n + 1)
  }

  lemma {:induction false} TailIsRest(k: Classes, text: string, n: nat)
    requires n <= |text|
    ensures TransliterateText(k, text) == Written(k, text, n) + Tail(k, text, n)
    decreases |text| - n
  {
    if n < |text| {
      TailIsRest(k, text, n + 1);
    }
  }

  /** From n on, no two letters merge. */
  predicate Apart(r: Reader, text: string, n: nat) { forall i | n <= i < |text| - 1 :: !r.merge(text[i], text[i + 1]) }

  lemma ApartFrom(r: Reader, text: string, n: nat)
    requires n < |text|
    ensures Apart(r, text, n) <==> Apart(r, text, n + 1) && (n + 1 < |text| ==> !r.merge(text[n], text[n + 1]))
  {
  }

  lemma SameAfterFirst(c: char, x: string, y: string)
    ensures [c] + x == [c] + y <==> x == y
  {
    assert ([c] + x)[1..] == x && ([c] + y)[1..] == y;
  }

  /** A letter spelled by two is read, and then the rest. */
  lemma ReadsTwo(r: Reader, c: char, s: string, rest: string)
    requires |s| == 2 && r.two(s[0], s[1]) == Some(c)
    ensures Read(r, s + rest) == [c] + Read(r, rest)
  {
    assert (s + rest)[2..] == rest;
  }

  /** A letter spelled by one is read alone, unless it looks like the beginning of
      another. */
  lemma ReadsOne(r: Reader, c: char, s: string, rest: string)
    requires |s| == 1 && r.one(s[0]) == c && (rest != "" ==> r.two(s[0], rest[0]) != Some(c))
    ensures rest != "" && r.two(s[0], rest[0]).Some? ==> Read(r, s + rest) != [] && Read(r, s + rest)[0] != c
    ensures rest == "" || r.two(s[0], rest[0]).None? ==> Read(r, s + rest) == [c] + Read(r, rest)
  {
    assert (s + rest)[1..] == rest;
  }

  lemma FirstOfTail(k: Classes, text: string, n: nat)
    requires n < |text| && Spelled(k, text, n) != ""
    ensures Tail(k, text, n) != "" && Tail(k, text, n)[0] == Spelled(k, text, n)[0]
  {
  }

  lemma {:induction false} ReadsTail(k: Classes, r: Reader, text: string, n: nat)
    requires Fits(k, r) && n <= |text| && forall i | 0 <= i < |text| :: r.Plain(text[i])
    ensures Read(r, Tail(k, text, n)) == text[n..] <==> Apart(r, text, n)
    decreases |text| - n
  {
    if n < |text| {
      var s, rest := Spelled(k, text, n), Tail(k, text, n + 1);
      ReadsTail(k, r, text, n + 1);
      ApartFrom(r, text, n);
      assert Spells(k, text[n], s) && ReadsAs(r, text[n], s);
      if n + 1 < |text| {
        assert Spells(k, text[n + 1], Spelled(k, text, n + 1));
        assert Separates(r, text[n], s, text[n + 1], Spelled(k, text, n + 1));
        FirstOfTail(k, text, n + 1);
      }
      ReadsNext(r, text, n, s, rest);
    }
  }

  lemma ReadsNext(r: Reader, text: string, n: nat, s: string, rest: string)
    requires n < |text| && ReadsAs(r, text[n], s)
    requires if n + 1 < |text| then rest != "" && Separates(r, text[n], s, text[n + 1], rest) else rest == ""
    ensures Read(r, s + rest) == text[n..] <==>
            Read(r, rest) == text[n + 1..] && (n + 1 < |text| ==> !r.merge(text[n], text[n + 1]))
  {
    assert text[n..] == [text[n]] + text[n + 1..];
    SameAfterFirst(text[n], Read(r, rest), text[n + 1..]);
    if |s| == 2 {
      ReadsTwo(r, text[n], s, rest);
    } else {
      ReadsOne(r, text[n], s, rest);
    }
  }

  // The Serbian alphabet

  function Serb(): Reader { Reader(c => Azbuka(c), (a, b) => Together(a, b), (a, b) => Merge(a, b)) }

  predicate Known(c: char) { Gajica(c) == "" || ReadsAs(Serb(), c, Gajica(c)) }

  lemma KnownCapitals(c: char)
    requires c < 'а'
    ensures Known(c)
  {
  }

  lemma KnownSmall(c: char)
    requires 'а' <= c <= 'н'
    ensures Known(c)
  {
  }

  lemma KnownSmallToo(c: char)
    requires 'н' < c <= 'ф'
    ensures Known(c)
  {
  }

  lemma KnownLast(c: char)
    requires 'ф' < c
    ensures Known(c)
  {
    match c
    case 'х' => case 'ц' => case 'ч' => case 'ш' =>
    case 'ђ' => case 'ј' => case 'љ' => case 'њ' => case 'ћ' => case 'џ' =>
    case _ =>
      assert Gajica(c) == "";
  }

  lemma LengthOfSpelling(c: char)
    ensures |Gajica(c)| <= 2 && (|Gajica(c)| == 2 <==> c in {'Љ', 'Њ', 'Џ', 'љ', 'њ', 'џ'})
  {
  }

  /** What the first Latin letter says about the Cyrillic one. */
  lemma SecondParts(c: char)
    requires Gajica(c) != ""
    ensures Gajica(c)[0] == 'j' <==> c == 'ј'
    ensures Gajica(c)[0] == 'J' <==> c == 'Ј'
    ensures Gajica(c)[0] == 'ž' <==> c == 'ж'
    ensures Gajica(c)[0] == 'Ž' <==> c == 'Ж'
  {
  }

  lemma FirstParts(c: char)
    requires |Gajica(c)| == 1
    ensures Gajica(c)[0] == 'L' <==> c == 'Л'
    ensures Gajica(c)[0] == 'N' <==> c == 'Н'
    ensures Gajica(c)[0] == 'D' <==> c == 'Д'
  {
  }

  lemma FirstSmallParts(c: char)
    requires |Gajica(c)| == 1
    ensures Gajica(c)[0] == 'l' <==> c == 'л'
    ensures Gajica(c)[0] == 'n' <==> c == 'н'
    ensures Gajica(c)[0] == 'd' <==> c == 'д'
  {
  }

  predicate NotLatin(c: char) { Azbuka(c) == c }

  lemma NotAPart(c: char)
    requires NotLatin(c)
    ensures c !in {'j', 'J', 'ž', 'Ž', 'L', 'N', 'D', 'l', 'n', 'd'}
  {
  }

  lemma InTables(alpha: set<char>, upper: set<char>, space: set<char>, c: char)
    ensures var k := Serbian(alpha, upper, space);
      && (c in k.letters <==> Gajica(c) != "") && (c in k.letters ==> k.letters[c] == Gajica(c))
      && k.capitals == map['Љ' := "LJ", 'Њ' := "NJ", 'Џ' := "DŽ"]
  {
  }

  lemma SerbianReads(alpha: set<char>, upper: set<char>, space: set<char>, c: char, s: string)
    requires NotLatin(c) && Spells(Serbian(alpha, upper, space), c, s)
    ensures ReadsAs(Serb(), c, s)
  {
    InTables(alpha, upper, space, c);
    if c < 'а' {
      KnownCapitals(c);
    } else if c <= 'н' {
      KnownSmall(c);
    } else if c <= 'ф' {
      KnownSmallToo(c);
    } else {
      KnownLast(c);
    }
  }

  /** What a spelling begins with, and whether it has one letter or two. */
  predicate Begins(c: char, s: string) {
    && (|s| == 1 || |s| == 2) && (|s| == 2 <==> c in {'Љ', 'Њ', 'Џ', 'љ', 'њ', 'џ'})
    && (s[0] == 'j' <==> c == 'ј') && (s[0] == 'J' <==> c == 'Ј')
    && (s[0] == 'ž' <==> c == 'ж') && (s[0] == 'Ž' <==> c == 'Ж')
    && (|s| == 1 ==> && (s[0] == 'L' <==> c == 'Л') && (s[0] == 'N' <==> c == 'Н') && (s[0] == 'D' <==> c == 'Д')
                     && (s[0] == 'l' <==> c == 'л') && (s[0] == 'n' <==> c == 'н') && (s[0] == 'd' <==> c == 'д'))
  }

  lemma SerbianBegins(alpha: set<char>, upper: set<char>, space: set<char>, c: char, s: string)
    requires NotLatin(c) && Spells(Serbian(alpha, upper, space), c, s)
    ensures Begins(c, s)
  {
    InTables(alpha, upper, space, c);
    LengthOfSpelling(c);
    NotAPart(c);
    if Gajica(c) != "" {
      SecondParts(c);
      if |Gajica(c)| == 1 {
        FirstParts(c);
        FirstSmallParts(c);
      }
    }
  }

  lemma BeginningsSeparate(a: char, s: string, b: char, t: string)
    requires Begins(a, s) && Begins(b, t)
    ensures Separates(Serb(), a, s, b, t)
  {
  }

  lemma SerbianFits(alpha: set<char>, upper: set<char>, space: set<char>)
    ensures Fits(Serbian(alpha, upper, space), Serb())
  {
    var k := Serbian(alpha, upper, space);
    forall c, s | Serb().Plain(c) && Spells(k, c, s) ensures ReadsAs(Serb(), c, s) {
      SerbianReads(alpha, upper, space, c, s);
    }
    forall a, s, b, t | Serb().Plain(a) && Serb().Plain(b) && Spells(k, a, s) && Spells(k, b, t)
      ensures Separates(Serb(), a, s, b, t)
    {
      SerbianBegins(alpha, upper, space, a, s);
      SerbianBegins(alpha, upper, space, b, t);
      BeginningsSeparate(a, s, b, t);
    }
  }

  /** A text without Latin letters is read back as it was exactly when no two of
      its letters merge, whatever the case rule made of its double letters. */
  lemma ReadsBackExactly(alpha: set<char>, upper: set<char>, space: set<char>, text: string)
    requires forall i | 0 <= i < |text| :: NotLatin(text[i])
    ensures Read(Serb(), TransliterateText(Serbian(alpha, upper, space), text)) == text <==>
            forall i | 0 <= i < |text| - 1 :: !Merge(text[i], text[i + 1])
  {
    var k := Serbian(alpha, upper, space);
    SerbianFits(alpha, upper, space);
    assert forall i | 0 <= i < |text| :: NotLatin(text[i]) ==> Serb().Plain(text[i]);
    ReadsTail(k, Serb(), text, 0);
    TailIsRest(k, text, 0);
    assert text[0..] == text && Tail(k, text, 0) == TransliterateText(k, text);
  }

  // Capitals

  predicate SmallLatin(c: char) { 'a' <= c <= 'z' || c == 'đ' || c == 'ž' || c == 'ć' || c == 'č' || c == 'š' }

  predicate SmallSerbian(c: char) { 'а' <= c <= 'џ' }

  predicate NoSmall(s: string) { forall c | c in s :: !SmallLatin(c) }

  predicate Double(c: char) { c == 'Љ' || c == 'Њ' || c == 'Џ' }

  lemma CapitalOfCapital(c: char)
    requires !SmallSerbian(c) && !Double(c)
    ensures NoSmall(Gajica(c))
  {
  }

  /** A letter beside the i-th character. */
  predicate Beside(alpha: set<char>, text: string, i: nat)
    requires i < |text|
  {
    (i + 1 < |text| && text[i + 1] in alpha) || (i > 0 && text[i - 1] in alpha)
  }

  /** Every letter is a capital, and a double letter has a letter beside it. */
  predicate InCapitals(alpha: set<char>, upper: set<char>, text: string) {
    && (forall i | 0 <= i < |text| :: !SmallSerbian(text[i]) && !SmallLatin(text[i]) && (text[i] in alpha ==> text[i] in upper))
    && (forall i | 0 <= i < |text| && Double(text[i]) :: Beside(alpha, text, i))
  }

  lemma BesideCapitals(k: Classes, text: string, i: nat)
    requires i < |text| && InCapitals(k.alpha, k.upper, text) && Double(text[i])
    ensures AllCapitals(k, text, i)
  {
    assert Beside(k.alpha, text, i);
  }

  lemma CapitalSpelling(alpha: set<char>, upper: set<char>, space: set<char>, text: string, i: nat)
    requires i < |text| && InCapitals(alpha, upper, text)
    ensures NoSmall(Spelled(Serbian(alpha, upper, space), text, i))
  {
    InTables(alpha, upper, space, text[i]);
    if Double(text[i]) {
      BesideCapitals(Serbian(alpha, upper, space), text, i);
    } else {
      CapitalOfCapital(text[i]);
    }
  }

  lemma {:induction false} CapitalsStay(alpha: set<char>, upper: set<char>, space: set<char>, text: string, n: nat)
    requires n <= |text| && InCapitals(alpha, upper, text)
    ensures NoSmall(Written(Serbian(alpha, upper, space), text, n))
  {
    if n > 0 {
      CapitalsStay(alpha, upper, space, text, n - 1);
      CapitalSpelling(alpha, upper, space, text, n - 1);
    }
  }

  /** A text in capitals, no double letter of which stands alone, is transliterated
      without a small letter. */
  lemma CapitalsStayCapitals(alpha: set<char>, upper: set<char>, space: set<char>, text: string)
    requires InCapitals(alpha, upper, text)
    ensures NoSmall(TransliterateText(Serbian(alpha, upper, space), text))
  {
    CapitalsStay(alpha, upper, space, text, |text|);
  }

  /** A capital double letter with a small letter after it, or alone, or at the end
      of a word after a small letter, has a small second letter. */
  lemma OnlyTheFirstIsCapital(alpha: set<char>, upper: set<char>, space: set<char>, text: string, i: nat)
    requires i < |text| && Double(text[i])
    requires if i + 1 < |text| && text[i + 1] in alpha then text[i + 1] !in upper
             else i > 0 && text[i - 1] in alpha ==> text[i - 1] !in upper
    ensures var s := Spelled(Serbian(alpha, upper, space), text, i); |s| == 2 && !SmallLatin(s[0]) && SmallLatin(s[1])
  {
    InTables(alpha, upper, space, text[i]);
    assert !AllCapitals(Serbian(alpha, upper, space), text, i);
    assert Gajica('Љ') == "Lj" && Gajica('Њ') == "Nj" && Gajica('Џ') == "Dž";
  }
}
