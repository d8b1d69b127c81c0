/**
 Serbian Cyrillic text to Latin, one letter at a time. Which characters are
 letters, capitals or white space is the Unicode tables' business: parameters.
 */
module Transliteration {
  import opened Braces

  /** The letters with their Latin spelling, those with a second spelling in
      capitals, the characters that are letters, capitals and white space, and
      the argument types that hold cases. */
  datatype Classes = Classes(letters: map<char, string>, capitals: map<char, string>, alpha: set<char>, upper: set<char>,
                             space: set<char>, keywords: set<string>)
  {
    predicate NoLetters(s: string) { forall i | 0 <= i < |s| :: s[i] !in letters }

    /** No spelling holds a letter that would be spelled again, or a brace. */
    ghost predicate Sane() {
      && (forall c | c in letters :: NoLetters(letters[c]) && NoBraces(letters[c]))
      && (forall c | c in capitals :: c in letters && NoLetters(capitals[c]) && NoBraces(capitals[c]))
    }
  }

  /** Lj or LJ, from the letters around. */
  predicate AllCapitals(k: Classes, text: string, i: nat)
    requires i < |text|
  {
    if i + 1 < |text| && text[i + 1] in k.alpha then text[i + 1] in k.upper
    else i > 0 && text[i - 1] in k.alpha && text[i - 1] in k.upper
  }

  function Spelled(k: Classes, text: string, i: nat): string
    requires i < |text|
  {
    if text[i] in k.capitals && AllCapitals(k, text, i) then k.capitals[text[i]]
    else if text[i] in k.letters then k.letters[text[i]]
    else [text[i]]
  }

  /** The first n characters of a text in Latin. */
  function Written(k: Classes, text: string, n: nat): string
    requires n <= |text|
  {
    if n == 0 then "" else Written(k, text, n - 1) + Spelled(k, text, n - 1)
  }

  function TransliterateText(k: Classes, text: string): string { Written(k, text, |text|) }

  method WriteText(k: Classes, text: string) returns (out: string)
    ensures out == TransliterateText(k, text)
  {
    out := "";
    for n := 0 to |text|
      invariant out == Written(k, text, n)
    {
      out := out + Spelled(k, text, n);
    }
  }

  // What transliteration never does

  lemma {:induction false} WritesNoBraces(k: Classes, text: string, n: nat)
    requires k.Sane() && n <= |text| && NoBraces(text)
    ensures NoBraces(Written(k, text, n))
  {
    if n > 0 {
      WritesNoBraces(k, text, n - 1);
    }
  }

  lemma {:induction false} WritesNoLetters(k: Classes, text: string, n: nat)
    requires k.Sane() && n <= |text|
    ensures k.NoLetters(Written(k, text, n))
  {
    if n > 0 {
      WritesNoLetters(k, text, n - 1);
    }
  }

  lemma {:induction false} NothingToWrite(k: Classes, text: string, n: nat)
    requires k.Sane() && n <= |text| && k.NoLetters(text)
    ensures Written(k, text, n) == text[..n]
  {
    if n > 0 {
      NothingToWrite(k, text, n - 1);
      assert text[n - 1] !in k.capitals;
      assert text[..n] == text[..n - 1] + [text[n - 1]];
    }
  }

  /** A second pass over a text changes nothing. */
  lemma TextIsIdempotent(k: Classes, text: string)
    requires k.Sane()
    ensures TransliterateText(k, TransliterateText(k, text)) == TransliterateText(k, text)
  {
    WritesNoLetters(k, text, |text|);
    var out := TransliterateText(k, text);
    NothingToWrite(k, out, |out|);
    assert out[..|out|] == out;
  }

  // Serbian

  /** A Latin letter. */
  predicate Roman(c: char) { 'A' <= c < 'Ѐ' && c != '{' && c != '}' }

  /** The Latin spelling of a Serbian Cyrillic letter; empty for other characters. */
  function Gajica(c: char): (r: string)
    ensures forall i | 0 <= i < |r| :: Roman(r[i])
  {
    match c
    case 'А' => "A" case 'Б' => "B" case 'В' => "V" case 'Г' => "G" case 'Д' => "D" case 'Ђ' => "Đ"
    case 'Е' => "E" case 'Ж' => "Ž" case 'З' => "Z" case 'И' => "I" case 'Ј' => "J" case 'К' => "K"
    case 'Л' => "L" case 'Љ' => "Lj" case 'М' => "M" case 'Н' => "N" case 'Њ' => "Nj" case 'О' => "O"
    case 'П' => "P" case 'Р' => "R" case 'С' => "S" case 'Т' => "T" case 'Ћ' => "Ć" case 'У' => "U"
    case 'Ф' => "F" case 'Х' => "H" case 'Ц' => "C" case 'Ч' => "Č" case 'Џ' => "Dž" case 'Ш' => "Š"
    case 'а' => "a" case 'б' => "b" case 'в' => "v" case 'г' => "g" case 'д' => "d" case 'ђ' => "đ"
    case 'е' => "e" case 'ж' => "ž" case 'з' => "z" case 'и' => "i" case 'ј' => "j" case 'к' => "k"
    case 'л' => "l" case 'љ' => "lj" case 'м' => "m" case 'н' => "n" case 'њ' => "nj" case 'о' => "o"
    case 'п' => "p" case 'р' => "r" case 'с' => "s" case 'т' => "t" case 'ћ' => "ć" case 'у' => "u"
    case 'ф' => "f" case 'х' => "h" case 'ц' => "c" case 'ч' => "č" case 'џ' => "dž" case 'ш' => "š"
    case _ => ""
  }

  /** The tables the transliterator uses, over the host's character classes. */
  function Serbian(alpha: set<char>, upper: set<char>, space: set<char>): Classes {
    Classes(map c | 'Ђ' <= c <= 'џ' && Gajica(c) != "" :: Gajica(c), map['Љ' := "LJ", 'Њ' := "NJ", 'Џ' := "DŽ"],
            alpha, upper, space, {"plural", "select", "selectordinal"})
  }

  /** The Serbian tables never spell a letter with a letter they spell. */
  lemma SerbianIsSane(alpha: set<char>, upper: set<char>, space: set<char>)
    ensures Serbian(alpha, upper, space).Sane()
  {
    var k := Serbian(alpha, upper, space);
    forall c | c in k.capitals ensures c in k.letters && k.NoLetters(k.capitals[c]) && NoBraces(k.capitals[c]) {
      assert c == 'Љ' || c == 'Њ' || c == 'Џ';
      assert forall i | 0 <= i < |k.capitals[c]| :: Roman(k.capitals[c][i]);
    }
    forall c | c in k.letters ensures k.NoLetters(k.letters[c]) && NoBraces(k.letters[c]) {
      assert forall i | 0 <= i < |k.letters[c]| :: Roman(k.letters[c][i]);
    }
  }
}
