/**
 The recovery key's display codec: 30 bytes of entropy and a two-byte check,
 written as 52 base-32 symbols and read back from typed text. The check is a
 parameter; bit arithmetic is on 16-bit words, as in the original.
 */
module RecoveryCodec {
  import opened Numerals

  type Word = w: int | 0 <= w < 65536

  const ENTROPY_BYTES := 30
  const CHECK_BYTES := 2
  const DISPLAY_CHARS := 52
  const MAX_DISPLAY_INPUT_BYTES := 256
  const CROCKFORD := "0123456789ABCDEFGHJKMNPQRSTVWXYZ"

  datatype Option<+T> = None | Some(value: T)
  datatype Result<+T> = Ok(value: T) | InvalidInput

  // Sixteen-bit words: a shift drops what leaves the word

  function Shl(w: Word, n: nat): Word
    decreases n, w
  {
    if n == 0 then w else Shl((2 * w) % 65536, n - 1)
  }

  function Shr(w: Word, n: nat): (r: Word)
    ensures r <= w
    decreases n, w
  {
    if n == 0 then w else Shr(w / 2, n - 1)
  }

  function LowBits(w: Word, n: nat): (r: Word)
    ensures r <= w
    decreases n, w
  {
    if n == 0 then 0 else 2 * LowBits(w / 2, n - 1) + w % 2
  }

  lemma {:induction false} ScaleGrows(w: nat, n: nat)
    ensures Scale(w, n) >= w
  {
    if n > 0 {
      ScaleGrows(w, n - 1);
    }
  }

  /** A shift that fits its word loses nothing. */
  lemma {:induction false} ShlExact(w: Word, n: nat)
    requires Scale(w, n) < 65536
    ensures Shl(w, n) == Scale(w, n)
    decreases n, w
  {
    if n > 0 {
      ScaleInside(w, n - 1);
      ScaleGrows(2 * w, n - 1);
      ShlExact(2 * w, n - 1);
    }
  }

  lemma {:induction false} ShrLow(w: Word, n: nat)
    ensures Scale(Shr(w, n), n) + LowBits(w, n) == w && LowBits(w, n) < Two(n)
    decreases n
  {
    if n > 0 {
      ShrLow(w / 2, n - 1);
    }
  }

  lemma {:induction false} AllLow(w: Word, n: nat)
    requires w < Two(n)
    ensures LowBits(w, n) == w
    decreases n
  {
    if n > 0 {
      AllLow(w / 2, n - 1);
    }
  }

  lemma {:induction false} LowSplit(w: Word, n: nat, m: nat)
    ensures LowBits(w, n + m) == Scale(LowBits(Shr(w, n), m), n) + LowBits(w, n)
    decreases n
  {
    if n > 0 {
      LowSplit(w / 2, n - 1, m);
    }
  }

  function Low5(w: Word): (r: int)
    ensures 0 <= r < 32
  {
    ShrLow(w, 5);
    LowBits(w, 5)
  }

  function Low8(w: Word): Byte {
    ShrLow(w, 8);
    TwoTo8(0);
    LowBits(w, 8)
  }

  // Symbols

  function Upper(c: char): char { if 'a' <= c <= 'z' then (c as int - 32) as char else c }

  function Alias(c: char): char { if c == 'O' then '0' else if c == 'I' || c == 'L' then '1' else c }

  function Position(s: string, c: char, from: nat): (r: Option<int>)
    ensures r.Some? ==> from <= r.value < |s| && s[r.value] == c
    ensures r.None? ==> forall i | from <= i < |s| :: s[i] != c
    decreases |s| - from
  {
    if from >= |s| then None else if s[from] == c then Some(from) else Position(s, c, from + 1)
  }

  predicate Separator(c: char) { c == '-' || c == ' ' }

  /** An alphabet, and the check computed from an entropy. */
  datatype Codec = Codec(alphabet: string, check: seq<Byte> -> seq<Byte>) {

    function SymbolValue(c: char): Option<int> { Position(alphabet, Alias(Upper(c)), 0) }

    /** 32 letters that read as themselves, and two check bytes. */
    ghost predicate Lawful() {
      && |alphabet| == 32
      && (forall i | 0 <= i < 32 :: SymbolValue(alphabet[i]) == Some(i) && !Separator(alphabet[i]))
      && (forall e :: |check(e)| == CHECK_BYTES)
    }

    /** The symbols a typed text stands for, when it holds nothing else. */
    function Symbols(text: string): (r: Option<seq<int>>)
      ensures r.Some? ==> DigitsIn(r.value, |alphabet|)
    {
      if text == [] then Some([])
      else
        var front, c := Symbols(text[..|text| - 1]), text[|text| - 1];
        if front.None? || Separator(c) then front
        else if SymbolValue(c).None? then None
        else Some(front.value + [SymbolValue(c).value])
    }

    function Letters(symbols: seq<int>): string
      requires DigitsIn(symbols, |alphabet|)
    {
      seq(|symbols|, i requires 0 <= i < |symbols| => alphabet[symbols[i]])
    }

    /** A typed text without separators, in upper case, with its aliases resolved. */
    function Normal(text: string): Option<string> {
      if Symbols(text).None? then None else Some(Letters(Symbols(text).value))
    }

    function Checked(entropy: seq<Byte>): seq<Byte> { entropy + check(entropy) }

    /** A key's symbols: its checked bytes as one number, followed by zero bits. */
    function Spelling(entropy: seq<Byte>): (r: seq<int>)
      ensures DigitsIn(r, 32) && |r| == (8 * |Checked(entropy)| + 4) / 5
    {
      BytesBound(Checked(entropy));
      Digits(16 * Value(Checked(entropy), 256), (8 * |Checked(entropy)| + 4) / 5)
    }

    function Display(entropy: seq<Byte>): string
      requires |alphabet| == 32
    {
      Letters(Spelling(entropy))
    }
  }

  function Crockford(check: seq<Byte> -> seq<Byte>): Codec { Codec(CROCKFORD, check) }

  lemma LetterCode(i: nat)
    requires i < 32
    ensures CROCKFORD[i] as int ==
            if i < 10 then 48 + i else if i < 18 then 55 + i else if i < 20 then 56 + i
            else if i < 22 then 57 + i else if i < 27 then 58 + i else 59 + i
  {
  }

  lemma LetterReads(check: seq<Byte> -> seq<Byte>, i: nat)
    requires i < 32
    ensures Crockford(check).SymbolValue(CROCKFORD[i]) == Some(i) && !Separator(CROCKFORD[i])
  {
    LetterCode(i);
    var r := Crockford(check).SymbolValue(CROCKFORD[i]);
    if r.Some? {
      LetterCode(r.value);
    }
  }

  /** The Crockford alphabet's letters stand for themselves. */
  lemma CrockfordIsLawful(check: seq<Byte> -> seq<Byte>)
    requires forall e :: |check(e)| == CHECK_BYTES
    ensures Crockford(check).Lawful()
  {
    forall i | 0 <= i < 32
      ensures Crockford(check).SymbolValue(CROCKFORD[i]) == Some(i) && !Separator(CROCKFORD[i])
    {
      LetterReads(check, i);
    }
  }

  lemma {:induction false} LettersRead(codec: Codec, symbols: seq<int>)
    requires codec.Lawful() && DigitsIn(symbols, 32)
    ensures codec.Symbols(codec.Letters(symbols)) == Some(symbols)
  {
    var text := codec.Letters(symbols);
    if symbols != [] {
      LettersRead(codec, symbols[..|symbols| - 1]);
      assert text[..|text| - 1] == codec.Letters(symbols[..|symbols| - 1]);
      assert symbols == symbols[..|symbols| - 1] + [symbols[|symbols| - 1]];
    }
  }

  /** What a longer text stands for extends what a shorter one does. */
  lemma {:induction false} SymbolsPrefix(codec: Codec, text: string, n: nat)
    requires n <= |text| && codec.Symbols(text).Some?
    ensures codec.Symbols(text[..n]).Some? && |codec.Symbols(text[..n]).value| <= |codec.Symbols(text).value|
  {
    if n < |text| {
      SymbolsPrefix(codec, text[..|text| - 1], n);
      assert text[..|text| - 1][..n] == text[..n];
    } else {
      assert text[..n] == text;
    }
  }

  // The spelling of a key

  lemma SpellingValue(codec: Codec, entropy: seq<Byte>)
    requires codec.Lawful() && |entropy| == ENTROPY_BYTES
    ensures Value(codec.Spelling(entropy), 32) == 16 * Value(codec.Checked(entropy), 256)
  {
    var bytes := codec.Checked(entropy);
    BytesBound(bytes);
    TwoTo5(8 * |bytes|);
    ValueOfDigits(16 * Value(bytes, 256), (8 * |bytes| + 4) / 5);
  }

  lemma SpelledBy(codec: Codec, entropy: seq<Byte>, symbols: seq<int>)
    requires codec.Lawful() && |entropy| == ENTROPY_BYTES
    requires |symbols| == DISPLAY_CHARS && DigitsIn(symbols, 32)
    ensures symbols == codec.Spelling(entropy) <==> Value(symbols, 32) == 16 * Value(codec.Checked(entropy), 256)
  {
    SpellingValue(codec, entropy);
    if Value(symbols, 32) == Value(codec.Spelling(entropy), 32) {
      SameValue(symbols, codec.Spelling(entropy), 32);
    }
  }

  lemma SpellingIsInjective(codec: Codec, e1: seq<Byte>, e2: seq<Byte>)
    requires codec.Lawful() && |e1| == |e2| == ENTROPY_BYTES && codec.Spelling(e1) == codec.Spelling(e2)
    ensures e1 == e2
  {
    SpellingValue(codec, e1);
    SpellingValue(codec, e2);
    SameValue(codec.Checked(e1), codec.Checked(e2), 256);
    assert e1 == codec.Checked(e1)[..ENTROPY_BYTES] && e2 == codec.Checked(e2)[..ENTROPY_BYTES];
  }

  /** Two keys never share a display. */
  lemma DisplayIsInjective(codec: Codec, e1: seq<Byte>, e2: seq<Byte>)
    requires codec.Lawful() && |e1| == |e2| == ENTROPY_BYTES && codec.Display(e1) == codec.Display(e2)
    ensures e1 == e2
  {
    LettersRead(codec, codec.Spelling(e1));
    LettersRead(codec, codec.Spelling(e2));
    SpellingIsInjective(codec, e1, e2);
  }

  // Encoding

  ghost predicate Shown(codec: Codec, out: string, symbols: seq<int>) {
    |codec.alphabet| == 32 && DigitsIn(symbols, 32) && out == codec.Letters(symbols)
  }

  lemma ShowNext(codec: Codec, out: string, symbols: seq<int>, d: int)
    requires Shown(codec, out, symbols) && 0 <= d < 32
    ensures Shown(codec, out + [codec.alphabet[d]], symbols + [d])
    ensures Value(symbols + [d], 32) == Value(symbols, 32) * 32 + d
  {
    ValueNext(symbols, d, 32);
  }

  /** The symbols so far, followed by the bits not yet taken, are the first n bytes. */
  ghost predicate Carries(symbols: seq<int>, bits: nat, rest: int, bytes: seq<Byte>, n: nat)
    requires n <= |bytes|
  {
    Scale(Value(symbols, 32), bits) + rest == Value(bytes[..n], 256)
  }

  lemma SplitDigit(v: int, buffer: Word, bits: nat)
    ensures Scale(v, bits + 5) + LowBits(buffer, bits + 5) ==
            Scale(v * 32 + Low5(Shr(buffer, bits)), bits) + LowBits(buffer, bits)
  {
    LowSplit(buffer, bits, 5);
    ScaleBy32(v, bits);
    ScaleAdds(v * 32, Low5(Shr(buffer, bits)), bits);
  }

  lemma TakeDigit(symbols: seq<int>, buffer: Word, bits: nat, bytes: seq<Byte>, n: nat)
    requires bits >= 5 && n <= |bytes| && Carries(symbols, bits, LowBits(buffer, bits), bytes, n)
    ensures Carries(symbols + [Low5(Shr(buffer, bits - 5))], bits - 5, LowBits(buffer, bits - 5), bytes, n)
  {
    SplitDigit(Value(symbols, 32), buffer, bits - 5);
    ValueNext(symbols, Low5(Shr(buffer, bits - 5)), 32);
  }

  lemma ShiftByte(buffer: Word, bits: nat, b: Byte)
    requires bits < 5 && buffer < Two(bits)
    ensures Shl(buffer, 8) == 256 * buffer && 256 * buffer + b < 4096
    ensures LowBits(256 * buffer + b, bits + 8) == 256 * buffer + b
  {
    TwoGrows(bits, 4);
    TwoTo8(bits);
    ScaleBy256(buffer, 0);
    ShlExact(buffer, 8);
    AllLow(256 * buffer + b, bits + 8);
  }

  lemma PutByte(symbols: seq<int>, buffer: Word, bits: nat, bytes: seq<Byte>, n: nat)
    requires n < |bytes| && Carries(symbols, bits, buffer, bytes, n)
    ensures Carries(symbols, bits + 8, 256 * buffer + bytes[n], bytes, n + 1)
  {
    ScaleBy256(Value(symbols, 32), bits);
    ValueNext(bytes[..n], bytes[n], 256);
    assert bytes[..n] + [bytes[n]] == bytes[..n + 1];
  }

  lemma LastSymbol(codec: Codec, entropy: seq<Byte>, out: string, symbols: seq<int>, buffer: Word)
    requires codec.Lawful() && |entropy| == ENTROPY_BYTES
    requires Shown(codec, out, symbols) && |symbols| == DISPLAY_CHARS - 1
    requires buffer < 2 && Carries(symbols, 1, buffer, codec.Checked(entropy), |codec.Checked(entropy)|)
    ensures Low5(Shl(buffer, 4)) == 16 * buffer && out + [codec.alphabet[16 * buffer]] == codec.Display(entropy)
  {
    var bytes := codec.Checked(entropy);
    assert bytes[..|bytes|] == bytes;
    assert Scale(Value(symbols, 32), 1) == 2 * Value(symbols, 32);
    assert Scale(buffer, 2) == 4 * buffer;
    assert Scale(buffer, 4) == 16 * buffer;
    ShlExact(buffer, 4);
    AllLow(16 * buffer, 5);
    ShowNext(codec, out, symbols, 16 * buffer);
    SpelledBy(codec, entropy, symbols + [16 * buffer]);
  }

  /** Takes every whole symbol off the buffer. */
  method TakeSymbols(codec: Codec, text: string, buffer: Word, count: nat,
                     ghost taken: seq<int>, ghost bytes: seq<Byte>, ghost n: nat)
    returns (out: string, bits: nat, ghost symbols: seq<int>)
    requires Shown(codec, text, taken) && n <= |bytes| && Carries(taken, count, LowBits(buffer, count), bytes, n)
    ensures Shown(codec, out, symbols) && Carries(symbols, bits, LowBits(buffer, bits), bytes, n)
    ensures bits < 5 && 5 * |symbols| + bits == 5 * |taken| + count
  {
    out, bits, symbols := text, count, taken;
    while bits >= 5
      invariant Shown(codec, out, symbols) && Carries(symbols, bits, LowBits(buffer, bits), bytes, n)
      invariant 5 * |symbols| + bits == 5 * |taken| + count
    {
      TakeDigit(symbols, buffer, bits, bytes, n);
      bits := bits - 5;
      var d := Low5(Shr(buffer, bits));
      ShowNext(codec, out, symbols, d);
      out := out + [codec.alphabet[d]];
      symbols := symbols + [d];
    }
  }

  /** The canonical display of an entropy of the right length. */
  method Encode(codec: Codec, entropy: seq<Byte>) returns (r: Result<string>)
    requires codec.Lawful()
    ensures r == if |entropy| == ENTROPY_BYTES then Ok(codec.Display(entropy)) else InvalidInput
  {
    if |entropy| != ENTROPY_BYTES {
      return InvalidInput;
    }
    var bytes := codec.Checked(entropy);
    var out := "";
    ghost var symbols: seq<int> := [];
    var buffer: Word, bits: nat := 0, 0;
    for n := 0 to |bytes|
      invariant Shown(codec, out, symbols) && Carries(symbols, bits, buffer, bytes, n)
      invariant 5 * |symbols| + bits == 8 * n && bits < 5 && buffer < Two(bits)
    {
      PutByte(symbols, buffer, bits, bytes, n);
      ShiftByte(buffer, bits, bytes[n]);
      buffer := Shl(buffer, 8) + bytes[n];
      out, bits, symbols := TakeSymbols(codec, out, buffer, bits + 8, symbols, bytes, n + 1);
      ShrLow(buffer, bits);
      buffer := LowBits(buffer, bits);
    }
    LastSymbol(codec, entropy, out, symbols, buffer);
    if bits > 0 {
      out := out + [codec.alphabet[Low5(Shl(buffer, 5 - bits))]];
    }
    r := Ok(out);
  }

  // Decoding

  /** The text normalises to exactly the display of this entropy. */
  predicate Reads(codec: Codec, text: string, entropy: seq<Byte>)
    requires |codec.alphabet| == 32
  {
    && 0 < |text| <= MAX_DISPLAY_INPUT_BYTES
    && |entropy| == ENTROPY_BYTES
    && codec.Normal(text) == Some(codec.Display(entropy))
  }

  /** Every entropy's display reads as that entropy and as no other. */
  lemma DisplayReads(codec: Codec, entropy: seq<Byte>, e: seq<Byte>)
    requires codec.Lawful() && |entropy| == ENTROPY_BYTES
    ensures Reads(codec, codec.Display(entropy), e) <==> e == entropy
  {
    LettersRead(codec, codec.Spelling(entropy));
    if |e| == ENTROPY_BYTES && codec.Display(e) == codec.Display(entropy) {
      DisplayIsInjective(codec, e, entropy);
    }
  }

  /** The bytes so far, followed by the bits not yet taken, are the symbols. */
  ghost predicate Holds(out: seq<Byte>, bits: nat, buffer: Word, symbols: seq<int>) {
    Scale(Value(out, 256), bits) + buffer == Value(symbols, 32)
  }

  lemma ShiftSymbol(buffer: Word, bits: nat, v: int)
    requires bits < 8 && buffer < Two(bits) && 0 <= v < 32
    ensures Shl(buffer, 5) == 32 * buffer && 32 * buffer + v < Two(bits + 5) <= 4096
  {
    TwoGrows(bits, 7);
    TwoTo5(2);
    TwoTo5(bits);
    ScaleBy32(buffer, 0);
    ShlExact(buffer, 5);
  }

  lemma PutSymbol(out: seq<Byte>, bits: nat, buffer: Word, symbols: seq<int>, v: int)
    requires Holds(out, bits, buffer, symbols) && 0 <= 32 * buffer + v < 65536
    ensures Holds(out, bits + 5, 32 * buffer + v, symbols + [v])
  {
    ScaleBy32(Value(out, 256), bits);
    ValueNext(symbols, v, 32);
  }

  lemma SplitByte(o: int, bits: nat, buffer: Word)
    requires buffer < Two(bits + 8)
    ensures Scale(o, bits + 8) + buffer == Scale(256 * o + Low8(Shr(buffer, bits)), bits) + LowBits(buffer, bits)
  {
    LowSplit(buffer, bits, 8);
    AllLow(buffer, bits + 8);
    ScaleBy256(o, bits);
    ScaleAdds(256 * o, Low8(Shr(buffer, bits)), bits);
  }

  lemma TakeByte(out: seq<Byte>, bits: nat, buffer: Word, symbols: seq<int>)
    requires Holds(out, bits + 8, buffer, symbols) && buffer < Two(bits + 8)
    ensures Holds(out + [Low8(Shr(buffer, bits))], bits, LowBits(buffer, bits), symbols)
  {
    SplitByte(Value(out, 256), bits, buffer);
    ValueNext(out, Low8(Shr(buffer, bits)), 256);
  }

  /** Puts one symbol into the buffer and takes a byte off when there is one. */
  method PushSymbol(text: seq<Byte>, count: nat, rest: Word, v: int, ghost symbols: seq<int>)
    returns (out: seq<Byte>, bits: nat, buffer: Word)
    requires 0 <= v < 32 && count < 8 && rest < Two(count) && Holds(text, count, rest, symbols)
    ensures bits < 8 && buffer < Two(bits) && Holds(out, bits, buffer, symbols + [v])
    ensures 8 * |out| + bits == 8 * |text| + count + 5
  {
    ShiftSymbol(rest, count, v);
    PutSymbol(text, count, rest, symbols, v);
    out, bits, buffer := text, count + 5, Shl(rest, 5) + v;
    if bits >= 8 {
      bits := bits - 8;
      TakeByte(out, bits, buffer, symbols + [v]);
      ShrLow(buffer, bits);
      out := out + [Low8(Shr(buffer, bits))];
      buffer := LowBits(buffer, bits);
    }
  }

  /** Equal displays are equal symbols. */
  lemma NormalIsDisplay(codec: Codec, text: string, entropy: seq<Byte>)
    requires codec.Lawful()
    ensures codec.Normal(text) == Some(codec.Display(entropy)) <==> codec.Symbols(text) == Some(codec.Spelling(entropy))
  {
    LettersRead(codec, codec.Spelling(entropy));
    if codec.Symbols(text).Some? {
      LettersRead(codec, codec.Symbols(text).value);
    }
  }

  /** What 52 symbols decode to: the text reads as an entropy just when the
      padding is zero and the bytes are that entropy and its check. */
  lemma DecodedBy(codec: Codec, text: string, symbols: seq<int>, out: seq<Byte>, buffer: Word, entropy: seq<Byte>)
    requires codec.Lawful() && codec.Symbols(text) == Some(symbols) && |entropy| == ENTROPY_BYTES
    requires |symbols| == DISPLAY_CHARS && |out| == ENTROPY_BYTES + CHECK_BYTES
    requires Holds(out, 4, buffer, symbols) && buffer < 16
    ensures codec.Normal(text) == Some(codec.Display(entropy)) <==> buffer == 0 && out == codec.Checked(entropy)
  {
    NormalIsDisplay(codec, text, entropy);
    SpelledBy(codec, entropy, symbols);
    ScaleBy16(Value(out, 256), 0);
    if Value(out, 256) == Value(codec.Checked(entropy), 256) {
      SameValue(out, codec.Checked(entropy), 256);
    }
  }

  /** A text that a prefix already rules out reads as nothing. */
  lemma Unreadable(codec: Codec, text: string, n: nat, e: seq<Byte>)
    requires codec.Lawful() && n <= |text|
    requires codec.Symbols(text[..n]).Some? ==> |codec.Symbols(text[..n]).value| > DISPLAY_CHARS
    ensures !Reads(codec, text, e)
  {
    if codec.Symbols(text).Some? {
      SymbolsPrefix(codec, text, n);
    }
    NormalIsDisplay(codec, text, e);
  }

  /** A text reads only as the bytes that came off the buffer. */
  lemma OnlyReading(codec: Codec, text: string, symbols: seq<int>, out: seq<Byte>, bits: nat, buffer: Word, e: seq<Byte>)
    requires codec.Lawful() && codec.Symbols(text) == Some(symbols) && 0 < |text| <= MAX_DISPLAY_INPUT_BYTES
    requires 8 * |out| + bits == 5 * |symbols| && bits < 8 && buffer < Two(bits) && Holds(out, bits, buffer, symbols)
    ensures Reads(codec, text, e) <==>
            |e| == ENTROPY_BYTES && |symbols| == DISPLAY_CHARS && buffer == 0 && out == codec.Checked(e)
  {
    NormalIsDisplay(codec, text, e);
    if |e| == ENTROPY_BYTES && |symbols| == DISPLAY_CHARS {
      assert bits == 4 && Two(4) == 16;
      DecodedBy(codec, text, symbols, out, buffer, e);
    }
  }

  /** Reads typed text: succeeds exactly on the texts that normalise to a
      display, and then with the entropy displayed. */
  method Decode(codec: Codec, text: string) returns (r: Result<seq<Byte>>)
    requires codec.Lawful()
    ensures forall e: seq<Byte> :: r == Ok(e) <==> Reads(codec, text, e)
  {
    if |text| == 0 || |text| > MAX_DISPLAY_INPUT_BYTES {
      return InvalidInput;
    }
    var out: seq<Byte> := [];
    var buffer: Word, bits: nat, count: nat := 0, 0, 0;
    var failed := false;
    ghost var symbols: seq<int> := [];
    var n := 0;
    while n < |text|
      invariant n <= |text| && codec.Symbols(text[..n]) == Some(symbols)
      invariant count == |symbols| <= DISPLAY_CHARS && 8 * |out| + bits == 5 * count
      invariant bits < 8 && buffer < Two(bits) && Holds(out, bits, buffer, symbols)
    {
      var c := text[n];
      assert text[..n + 1][..n] == text[..n];
      n := n + 1;
      if Separator(c) {
        continue;
      }
      var value := codec.SymbolValue(c);
      if value.None? || count == DISPLAY_CHARS {
        forall e: seq<Byte> ensures !Reads(codec, text, e) {
          Unreadable(codec, text, n, e);
        }
        return InvalidInput;
      }
      count := count + 1;
      out, bits, buffer := PushSymbol(out, bits, buffer, value.value, symbols);
      symbols := symbols + [value.value];
    }
    assert text[..n] == text;
    forall e: seq<Byte>
      ensures Reads(codec, text, e) <==>
              |e| == ENTROPY_BYTES && |symbols| == DISPLAY_CHARS && buffer == 0 && out == codec.Checked(e)
    {
      OnlyReading(codec, text, symbols, out, bits, buffer, e);
    }
    if count != DISPLAY_CHARS || bits != 4 || buffer != 0 || |out| != ENTROPY_BYTES + CHECK_BYTES {
      return InvalidInput;
    }
    var entropy, check := out[..ENTROPY_BYTES], out[ENTROPY_BYTES..];
    if check != codec.check(entropy) {
      return InvalidInput;
    }
    r := Ok(entropy);
  }
}
