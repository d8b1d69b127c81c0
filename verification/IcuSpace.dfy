/**
 White space around an argument's type: stripping leaves exactly the word between.
 */
module IcuSpace {
  import opened Transliteration
  import opened IcuMessage

  predicate Spaces(k: Classes, s: string) { forall i | 0 <= i < |s| :: s[i] in k.space }

  /** Neither begins nor ends with white space. */
  predicate Trimmed(k: Classes, w: string) { w != "" ==> w[0] !in k.space && w[|w| - 1] !in k.space }

  lemma {:induction false} LeadIs(k: Classes, s: string, i: nat)
    requires i <= |s|
    ensures var r := Lead(k, s, i); (forall j | i <= j < r :: s[j] in k.space) && (r < |s| ==> s[r] !in k.space)
    decreases |s| - i
  {
    if i < |s| && s[i] in k.space {
      LeadIs(k, s, i + 1);
    }
  }

  lemma {:induction false} TrailIs(k: Classes, s: string, lo: nat, hi: nat)
    requires lo <= hi <= |s|
    ensures var r := Trail(k, s, lo, hi); (forall j | r <= j < hi :: s[j] in k.space) && (lo < r ==> s[r - 1] !in k.space)
    decreases hi - lo
  {
    if lo < hi && s[hi - 1] in k.space {
      TrailIs(k, s, lo, hi - 1);
    }
  }

  lemma InThree(s: string, lo: nat, hi: nat)
    requires lo <= hi <= |s|
    ensures s == s[..lo] + s[lo..hi] + s[hi..]
  {
  }

  lemma SliceIsTrimmed(k: Classes, s: string, lo: nat, hi: nat)
    requires lo <= hi <= |s| && (lo < hi ==> s[lo] !in k.space && s[hi - 1] !in k.space)
    ensures Trimmed(k, s[lo..hi])
  {
  }

  /** Stripping splits a text into white space, a word and white space. */
  lemma StripSplits(k: Classes, s: string) returns (a: string, b: string)
    ensures s == a + Strip(k, s) + b && Spaces(k, a) && Spaces(k, b) && Trimmed(k, Strip(k, s))
  {
    var lo := Lead(k, s, 0);
    var hi := Trail(k, s, lo, |s|);
    LeadIs(k, s, 0);
    TrailIs(k, s, lo, |s|);
    InThree(s, lo, hi);
    SliceIsTrimmed(k, s, lo, hi);
    a, b := s[..lo], s[hi..];
  }

  lemma LeadEnds(k: Classes, a: string, w: string, b: string)
    requires Spaces(k, a) && w != "" && Trimmed(k, w)
    ensures Lead(k, a + w + b, 0) == |a|
  {
    var s := a + w + b;
    LeadIs(k, s, 0);
    assert forall i | 0 <= i < |a| :: s[i] == a[i];
    assert s[|a|] == w[0];
  }

  lemma TrailEnds(k: Classes, a: string, w: string, b: string)
    requires Spaces(k, b) && w != "" && Trimmed(k, w)
    ensures Trail(k, a + w + b, |a|, |a + w + b|) == |a + w|
  {
    var s := a + w + b;
    TrailIs(k, s, |a|, |s|);
    assert forall i | 0 <= i < |b| :: s[|a + w| + i] == b[i];
    assert forall i | |a + w| <= i < |s| :: s[i] == b[i - |a + w|];
    assert s[|a + w| - 1] == w[|w| - 1];
  }

  /** An argument holds cases exactly when its type is one of the keywords with
      nothing but white space around it. */
  lemma HoldsCasesExactly(k: Classes, s: string)
    requires forall w | w in k.keywords :: w != "" && Trimmed(k, w)
    ensures HoldsCases(k, s) <==> exists a, w, b :: w in k.keywords && s == a + w + b && Spaces(k, a) && Spaces(k, b)
  {
    if HoldsCases(k, s) {
      var a, b := StripSplits(k, s);
    }
    if a, w, b :| w in k.keywords && s == a + w + b && Spaces(k, a) && Spaces(k, b) {
      LeadEnds(k, a, w, b);
      TrailEnds(k, a, w, b);
      assert s[|a|..|a + w|] == w;
    }
  }
}
