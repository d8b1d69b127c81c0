/**
 Fixed-length numerals, most significant digit first: the number a byte string
 or a base-32 text stands for, and why the spelling is one-to-one.
 */
module Numerals {

  type Byte = b: int | 0 <= b < 256

  predicate DigitsIn(s: seq<int>, base: int) { forall i | 0 <= i < |s| :: 0 <= s[i] < base }

  function Value(s: seq<int>, base: int): int {
    if s == [] then 0 else Value(s[..|s| - 1], base) * base + s[|s| - 1]
  }

  function Two(n: nat): nat { if n == 0 then 1 else 2 * Two(n - 1) }

  /** v times two to the n. */
  function Scale(v: int, n: nat): int { if n == 0 then v else 2 * Scale(v, n - 1) }

  lemma {:induction false} ScaleAdds(a: int, b: int, n: nat)
    ensures Scale(a + b, n) == Scale(a, n) + Scale(b, n)
  {
    if n > 0 {
      ScaleAdds(a, b, n - 1);
    }
  }

  lemma {:induction false} ScaleInside(v: int, n: nat)
    ensures Scale(2 * v, n) == Scale(v, n + 1)
  {
    if n > 0 {
      ScaleInside(v, n - 1);
    }
  }

  lemma ScaleBy16(v: int, n: nat)
    ensures Scale(16 * v, n) == Scale(v, n + 4) == 16 * Scale(v, n)
  {
    ScaleInside(v, n + 3);
    ScaleInside(2 * v, n + 2);
    ScaleInside(4 * v, n + 1);
    ScaleInside(8 * v, n);
    assert Scale(v, n + 2) == 4 * Scale(v, n);
    assert Scale(v, n + 4) == 4 * Scale(v, n + 2);
  }

  lemma ScaleBy32(v: int, n: nat)
    ensures Scale(32 * v, n) == Scale(v, n + 5) == 32 * Scale(v, n)
  {
    ScaleInside(16 * v, n);
    ScaleBy16(v, n + 1);
  }

  lemma ScaleBy256(v: int, n: nat)
    ensures Scale(256 * v, n) == Scale(v, n + 8) == 256 * Scale(v, n)
  {
    ScaleBy16(16 * v, n);
    ScaleBy16(v, n + 4);
    ScaleBy16(v, n);
  }

  /** The last len base-32 digits of a number. */
  function Digits(n: nat, len: nat): (r: seq<int>)
    ensures |r| == len && DigitsIn(r, 32)
  {
    if len == 0 then [] else Digits(n / 32, len - 1) + [n % 32]
  }

  /** How many numbers len bytes can hold. */
  function Full(len: nat): nat { if len == 0 then 1 else 256 * Full(len - 1) }

  /** A number as big-endian bytes. */
  function BytesOf(n: nat, len: nat): (r: seq<Byte>)
    ensures |r| == len
    decreases len, n
  {
    if len == 0 then [] else BytesOf(n / 256, len - 1) + [n % 256]
  }

  lemma ValueNext(s: seq<int>, d: int, base: int)
    ensures Value(s + [d], base) == Value(s, base) * base + d
  {
    assert (s + [d])[..|s|] == s;
  }

  lemma {:induction false} TwoGrows(m: nat, n: nat)
    requires m <= n
    ensures Two(m) <= Two(n)
  {
    if m < n {
      TwoGrows(m, n - 1);
    }
  }

  lemma TwoTo5(n: nat)
    ensures Two(n + 5) == 32 * Two(n) && Two(n + 4) == 16 * Two(n)
  {
    assert Two(n + 2) == 4 * Two(n);
    assert Two(n + 4) == 4 * Two(n + 2);
  }

  lemma TwoTo8(n: nat)
    ensures Two(n + 8) == 256 * Two(n)
  {
    TwoTo5(n);
    TwoTo5(n + 4);
  }

  lemma {:induction false} BytesBound(s: seq<int>)
    requires DigitsIn(s, 256)
    ensures 0 <= Value(s, 256) < Two(8 * |s|)
  {
    if s != [] {
      BytesBound(s[..|s| - 1]);
      TwoTo8(8 * (|s| - 1));
    }
  }

  /** Enough digits give back the number. */
  lemma {:induction false} ValueOfDigits(n: nat, len: nat)
    requires n < Two(5 * len)
    ensures Value(Digits(n, len), 32) == n
  {
    if len > 0 {
      TwoTo5(5 * (len - 1));
      ValueOfDigits(n / 32, len - 1);
      ValueNext(Digits(n / 32, len - 1), n % 32, 32);
    }
  }

  lemma {:induction false} ValueOfBytes(n: nat, len: nat)
    requires n < Full(len)
    ensures Value(BytesOf(n, len), 256) == n
  {
    if len > 0 {
      ValueOfBytes(n / 256, len - 1);
      ValueNext(BytesOf(n / 256, len - 1), n % 256, 256);
    }
  }

  lemma {:induction false} BytesOfValue(s: seq<Byte>)
    ensures 0 <= Value(s, 256) < Full(|s|) && BytesOf(Value(s, 256), |s|) == s
  {
    if s != [] {
      BytesOfValue(s[..|s| - 1]);
      assert s == s[..|s| - 1] + [s[|s| - 1]];
    }
  }

  lemma {:induction false} Gap(a: int, b: int, base: int)
    requires a < b && base > 0
    ensures a * base + base <= b * base
    decreases b - a
  {
    assert b * base == (b - 1) * base + base;
    if a + 1 < b {
      Gap(a, b - 1, base);
    }
  }

  /** Two numerals of one length and one value are the same. */
  lemma {:induction false} SameValue(s: seq<int>, t: seq<int>, base: int)
    requires base > 0 && DigitsIn(s, base) && DigitsIn(t, base) && |s| == |t| && Value(s, base) == Value(t, base)
    ensures s == t
  {
    if s != [] {
      var a, b := Value(s[..|s| - 1], base), Value(t[..|t| - 1], base);
      if a < b {
        Gap(a, b, base);
      } else if b < a {
        Gap(b, a, base);
      }
      SameValue(s[..|s| - 1], t[..|t| - 1], base);
      assert s == s[..|s| - 1] + [s[|s| - 1]] && t == t[..|t| - 1] + [t[|t| - 1]];
    }
  }
}
