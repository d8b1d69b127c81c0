/**
 Braces in strings: how deep a place is, the brace that closes another, balance,
 and the facts about putting strings together that the parser's proofs use.
 */
module Braces {

  predicate Brace(c: char) { c == '{' || c == '}' }

  predicate NoBraces(s: string) { forall i | 0 <= i < |s| :: !Brace(s[i]) }

  // Depth

  function Step(c: char): int { if c == '{' then 1 else if c == '}' then -1 else 0 }

  /** How many braces are open at n, counted from a place on. */
  function Depth(s: string, from: nat, n: nat): int
    requires from <= n <= |s|
    decreases n
  {
    if n == from then 0 else Depth(s, from, n - 1) + Step(s[n - 1])
  }

  /** The brace at c closes what was opened from a place on. */
  predicate ClosesAt(s: string, from: nat, c: nat)
    requires from <= c < |s|
  {
    s[c] == '}' && Depth(s, from, c + 1) == 0
  }

  /** The first such brace from i on, or the length. */
  function Close(s: string, from: nat, i: nat): (r: nat)
    requires from <= i <= |s|
    ensures i <= r <= |s|
    ensures r < |s| ==> ClosesAt(s, from, r)
    ensures forall j | i <= j < r :: !ClosesAt(s, from, j)
    decreases |s| - i
  {
    if i == |s| || ClosesAt(s, from, i) then i else Close(s, from, i + 1)
  }

  /** One brace pair around everything: open from the first character to the last. */
  ghost predicate Closed(s: string) {
    && s != "" && s[0] == '{' && Depth(s, 0, |s|) == 0
    && forall n | 0 < n < |s| :: Depth(s, 0, n) > 0
  }

  /** Equal stretches are equally deep. */
  lemma {:induction false} DepthSame(s: string, from: nat, n: nat, u: string, at: nat)
    requires from <= n <= |s| && at + (n - from) <= |u|
    requires forall j | from <= j < n :: s[j] == u[at + (j - from)]
    ensures Depth(s, from, n) == Depth(u, at, at + (n - from))
    decreases n
  {
    if n > from {
      DepthSame(s, from, n - 1, u, at);
    }
  }

  /** Until the brace that closes an opening one, something is open. */
  lemma {:induction false} OpenInside(s: string, from: nat, n: nat)
    requires from < n <= |s| && s[from] == '{' && forall j | from <= j < n :: !ClosesAt(s, from, j)
    ensures Depth(s, from, n) > 0
    decreases n
  {
    if n > from + 1 {
      OpenInside(s, from, n - 1);
      assert !ClosesAt(s, from, n - 1);
    }
  }

  /** An opening brace and its closing one enclose a closed string. */
  lemma ClosedAt(s: string, c: nat)
    requires s != "" && s[0] == '{' && c < |s| && c == Close(s, 0, 0)
    ensures Closed(s[..c + 1])
  {
    var x := s[..c + 1];
    assert ClosesAt(s, 0, c);
    DepthSame(s, 0, c + 1, x, 0);
    forall n | 0 < n < |x| ensures Depth(x, 0, n) > 0 {
      DepthSame(s, 0, n, x, 0);
      OpenInside(s, 0, n);
    }
  }

  /** A closed string is closed at its end, whatever follows it. */
  lemma ClosesThere(x: string, rest: string)
    requires Closed(x)
    ensures Close(x + rest, 0, 0) == |x| - 1
  {
    var s := x + rest;
    forall n | 0 <= n <= |x| ensures Depth(s, 0, n) == Depth(x, 0, n) {
      DepthSame(x, 0, n, s, 0);
    }
    assert Depth(x, 0, |x|) == Depth(x, 0, |x| - 1) + Step(x[|x| - 1]);
    assert ClosesAt(s, 0, |x| - 1);
    forall j | 0 <= j < |x| - 1 ensures !ClosesAt(s, 0, j) {
      assert Depth(s, 0, j + 1) > 0;
    }
  }

  // Balance

  function Net(s: string): int { Depth(s, 0, |s|) }

  /** No prefix closes more than a number of braces it did not open. */
  ghost predicate Floor(s: string, below: int) { forall n | 0 <= n <= |s| :: Depth(s, 0, n) >= -below }

  ghost predicate Balanced(s: string) { Floor(s, 0) && Net(s) == 0 }

  lemma {:induction false} DepthJoin(x: string, y: string, n: nat)
    requires n <= |y|
    ensures Depth(x + y, 0, |x| + n) == Net(x) + Depth(y, 0, n)
  {
    if n == 0 {
      DepthSame(x, 0, |x|, x + y, 0);
    } else {
      DepthJoin(x, y, n - 1);
      assert (x + y)[|x| + n - 1] == y[n - 1];
    }
  }

  lemma Join(x: string, y: string, below: int)
    requires Floor(x, below) && Floor(y, below + Net(x))
    ensures Floor(x + y, below) && Net(x + y) == Net(x) + Net(y)
  {
    DepthJoin(x, y, |y|);
    forall n | 0 <= n <= |x + y| ensures Depth(x + y, 0, n) >= -below {
      if n <= |x| {
        DepthSame(x, 0, n, x + y, 0);
      } else {
        DepthJoin(x, y, n - |x|);
      }
    }
  }

  lemma {:induction false} FlatText(s: string, n: nat)
    requires n <= |s| && NoBraces(s)
    ensures Depth(s, 0, n) == 0
  {
    if n > 0 {
      FlatText(s, n - 1);
    }
  }

  lemma TextNet(s: string)
    requires NoBraces(s)
    ensures Floor(s, 0) && Net(s) == 0
  {
    forall n | 0 <= n <= |s| ensures Depth(s, 0, n) == 0 {
      FlatText(s, n);
    }
  }

  /** A string that closes nothing: how deep it leads, and when it leads nowhere. */
  lemma {:induction false} RisesBy(s: string, n: nat)
    requires n <= |s| && '}' !in s
    ensures Depth(s, 0, n) >= 0 && (Depth(s, 0, n) == 0 <==> '{' !in s[..n])
  {
    if n > 0 {
      RisesBy(s, n - 1);
      assert s[..n] == s[..n - 1] + [s[n - 1]];
      assert s[n - 1] in s;
    }
  }

  lemma OpeningNet(s: string)
    requires '}' !in s
    ensures Floor(s, 0) && Net(s) >= 0 && (Net(s) == 0 <==> '{' !in s)
  {
    forall n | 0 <= n <= |s| ensures Depth(s, 0, n) >= 0 {
      RisesBy(s, n);
    }
    RisesBy(s, |s|);
    assert s[..|s|] == s;
  }

  lemma OneNet(c: char)
    ensures Net([c]) == Step(c) && (c != '}' ==> Floor([c], 0)) && Floor([c], 1)
  {
    assert Depth([c], 0, 1) == Depth([c], 0, 0) + Step(c);
  }

  // The braces of a string, in order

  function BracesOf(s: string): string {
    if s == "" then ""
    else BracesOf(s[..|s| - 1]) + if Brace(s[|s| - 1]) then [s[|s| - 1]] else []
  }

  lemma {:induction false} BracesJoin(x: string, y: string)
    ensures BracesOf(x + y) == BracesOf(x) + BracesOf(y)
  {
    if y == "" {
      assert x + y == x;
    } else {
      assert (x + y)[..|x + y| - 1] == x + y[..|y| - 1];
      BracesJoin(x, y[..|y| - 1]);
    }
  }

  lemma {:induction false} NoneToKeep(s: string)
    requires NoBraces(s)
    ensures BracesOf(s) == ""
  {
    if s != "" {
      NoneToKeep(s[..|s| - 1]);
    }
  }

  // Putting strings together

  lemma Three(x: string, y: string, z: string)
    ensures x + (y + z) == (x + y) + z
  {
  }

  lemma Four(t: string, a: string, b: string, c: string)
    ensures t + (a + (b + c)) == (t + (a + b)) + c
  {
  }

  lemma Five(x: string, b: string, brace: string, c: string, rest: string)
    ensures x + (b + (brace + (c + rest))) == (x + (b + (brace + c))) + rest
  {
  }

  lemma FirstApart(s: string)
    requires s != ""
    ensures s == [s[0]] + s[1..]
  {
  }

  lemma CutOnce(s: string, n: nat)
    requires 1 <= n < |s|
    ensures s == [s[0]] + (s[1..n] + ([s[n]] + s[n + 1..]))
  {
  }

  lemma CutTwice(s: string, n: nat, t: nat)
    requires 1 <= n < t < |s|
    ensures s == ([s[0]] + (s[1..n] + ([s[n]] + s[n + 1..t]))) + ([s[t]] + s[t + 1..])
    ensures [s[t]] + s[t + 1..] == s[t..]
  {
  }

  /** The middle of three strings and what follows it. */
  lemma Middle(p: string, w: string, rest: string)
    ensures var s := p + (w + rest);
            && s[|p|..|p| + |w|] == w && s[|p| + |w|..] == rest
            && (forall j | |p| <= j < |p| + |w| :: s[j] == w[j - |p|])
            && (rest != "" ==> s[|p| + |w|] == rest[0])
  {
  }

  lemma Halves(s: string, t: string, u: string)
    requires s == t + u && u != ""
    ensures s[..|t|] == t && s[|t|] == u[0] && s[..|t| + 1] == t + [u[0]] && s[|t| + 1..] == u[1..]
  {
  }

  lemma SplitAt(s: string, start: nat, i: nat)
    requires start <= i <= |s|
    ensures s[start..] == s[start..i] + s[i..]
    ensures i < |s| ==> s[i..] == [s[i]] + s[i + 1..] && s[i..][1..] == s[i + 1..]
  {
  }

  lemma SliceOfRest(s: string, i: nat, j: nat, n: nat)
    requires i + j <= n <= |s|
    ensures s[i..][j..n - i] == s[i + j..n] && s[i..][n - i..] == s[n..]
  {
  }
}
