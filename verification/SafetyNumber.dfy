/**
 The transcript behind a conversation's safety number: the group id and every
 member's credential and signature key, sorted so that all devices agree, with
 repeated members refused. Two conversations share a transcript exactly when
 they are the same group with the same set of members.
 */
module SafetyNumber {
  import opened Numerals
  import opened HistoryFormat
  import opened MlsGroup

  datatype MemberKey = MemberKey(credential: Bytes, signatureKey: Bytes)

  /** "veritra-conversation-safety-v2" */
  const LABEL: Bytes := [118, 101, 114, 105, 116, 114, 97, 45, 99, 111, 110, 118, 101, 114, 115, 97, 116, 105, 111, 110,
                         45, 115, 97, 102, 101, 116, 121, 45, 118, 50]

  // Byte strings in order

  predicate AtMost(a: Bytes, b: Bytes) {
    a == [] || (b != [] && (a[0] < b[0] || (a[0] == b[0] && AtMost(a[1..], b[1..]))))
  }

  lemma {:induction false} Antisymmetric(a: Bytes, b: Bytes)
    requires AtMost(a, b) && AtMost(b, a)
    ensures a == b
  {
    if a != [] {
      Antisymmetric(a[1..], b[1..]);
      assert a == [a[0]] + a[1..] && b == [b[0]] + b[1..];
    }
  }

  lemma {:induction false} Total(a: Bytes, b: Bytes)
    ensures AtMost(a, b) || AtMost(b, a)
  {
    if a != [] && b != [] && a[0] == b[0] {
      Total(a[1..], b[1..]);
    }
  }

  lemma {:induction false} Transitive(a: Bytes, b: Bytes, c: Bytes)
    requires AtMost(a, b) && AtMost(b, c)
    ensures AtMost(a, c)
  {
    if a != [] && a[0] == b[0] && b[0] == c[0] {
      Transitive(a[1..], b[1..], c[1..]);
    }
  }

  ghost predicate Sorted(s: seq<Bytes>) { forall i, j | 0 <= i < j < |s| :: AtMost(s[i], s[j]) }

  function Insert(x: Bytes, s: seq<Bytes>): seq<Bytes> {
    if s == [] || AtMost(x, s[0]) then [x] + s else [s[0]] + Insert(x, s[1..])
  }

  function Sort(s: seq<Bytes>): seq<Bytes> { if s == [] then [] else Insert(s[0], Sort(s[1..])) }

  lemma {:induction false} InsertSorts(x: Bytes, s: seq<Bytes>)
    requires Sorted(s)
    ensures Sorted(Insert(x, s)) && multiset(Insert(x, s)) == multiset(s) + multiset{x}
  {
    if s == [] {
    } else if AtMost(x, s[0]) {
      forall j | 0 <= j < |s| ensures AtMost(x, s[j]) {
        if j > 0 {
          Transitive(x, s[0], s[j]);
        }
      }
    } else {
      Total(x, s[0]);
      InsertSorts(x, s[1..]);
      var t := Insert(x, s[1..]);
      assert s == [s[0]] + s[1..];
      forall j | 0 <= j < |t| ensures AtMost(s[0], t[j]) {
        assert t[j] in multiset(t);
        if t[j] != x {
          assert t[j] in multiset(s[1..]);
          var k :| 0 <= k < |s[1..]| && s[1..][k] == t[j];
          assert s[k + 1] == t[j];
        }
      }
    }
  }

  /** Sorting orders the entries and neither loses nor repeats one. */
  lemma {:induction false} Sorts(s: seq<Bytes>)
    ensures Sorted(Sort(s)) && multiset(Sort(s)) == multiset(s)
  {
    if s != [] {
      Sorts(s[1..]);
      InsertSorts(s[0], Sort(s[1..]));
      assert s == [s[0]] + s[1..];
    }
  }

  // Repetition

  predicate Repeats(s: seq<Bytes>) { exists i | 0 <= i < |s| - 1 :: s[i] == s[i + 1] }

  ghost predicate Once(s: seq<Bytes>) { forall i, j | 0 <= i < j < |s| :: s[i] != s[j] }

  lemma {:induction false} OnceCounts(s: seq<Bytes>)
    ensures Once(s) <==> forall x :: multiset(s)[x] <= 1
  {
    if s != [] {
      var t := s[1..];
      OnceCounts(t);
      assert s == [s[0]] + t;
      assert multiset(s) == multiset{s[0]} + multiset(t);
      if Once(s) {
        assert forall k | 0 <= k < |t| :: t[k] == s[k + 1];
        assert s[0] !in t;
        assert Once(t);
      } else {
        var i, j :| 0 <= i < j < |s| && s[i] == s[j];
        if i == 0 {
          assert t[j - 1] == s[0];
          assert multiset(t)[s[0]] >= 1;
          assert multiset(s)[s[0]] >= 2;
        } else {
          assert t[i - 1] == t[j - 1];
          assert !Once(t);
          var x :| multiset(t)[x] > 1;
          assert multiset(s)[x] > 1;
        }
      }
    }
  }

  lemma SortedRepeats(s: seq<Bytes>)
    requires Sorted(s)
    ensures Repeats(s) <==> !Once(s)
  {
    if !Once(s) {
      var i, j :| 0 <= i < j < |s| && s[i] == s[j];
      assert AtMost(s[i], s[i + 1]);
      if i + 1 < j {
        assert AtMost(s[i + 1], s[j]);
      }
      Total(s[i], s[i]);
      Antisymmetric(s[i], s[i + 1]);
    }
  }

  /** Sorting brings a repeated entry next to itself. */
  lemma SortFindsRepeats(s: seq<Bytes>)
    ensures Repeats(Sort(s)) <==> !Once(s)
  {
    Sorts(s);
    SortedRepeats(Sort(s));
    OnceCounts(s);
    OnceCounts(Sort(s));
  }

  /** Sorted lists without repetition are the same as soon as their sets are. */
  lemma {:induction false} SameSetSameList(s: seq<Bytes>, t: seq<Bytes>)
    requires Sorted(s) && Sorted(t) && Once(s) && Once(t) && (forall x :: x in s <==> x in t)
    ensures s == t
  {
    assert |t| == 0 || t[0] in s;
    assert |s| == 0 || s[0] in t;
    if s != [] {
      var i :| 0 <= i < |t| && t[i] == s[0];
      assert t[0] in s;
      var j :| 0 <= j < |s| && s[j] == t[0];
      if i > 0 && j > 0 {
        Antisymmetric(s[0], t[0]);
      }
      SameTail(s, t);
      SameSetSameList(s[1..], t[1..]);
      assert s == [s[0]] + s[1..] && t == [t[0]] + t[1..];
    }
  }

  lemma SameTail(s: seq<Bytes>, t: seq<Bytes>)
    requires s != [] && t != [] && s[0] == t[0] && Once(s) && Once(t) && (forall x :: x in s <==> x in t)
    ensures forall x :: x in s[1..] <==> x in t[1..]
  {
    forall x ensures x in s[1..] <==> x in t[1..] {
      InTail(s, x);
      InTail(t, x);
    }
  }

  lemma InTail(s: seq<Bytes>, x: Bytes)
    requires s != [] && Once(s)
    ensures x in s[1..] <==> x in s && x != s[0]
  {
    if x in s && x != s[0] {
      var i :| 0 <= i < |s| && s[i] == x;
      assert s[1..][i - 1] == x;
    }
  }

  // The transcript

  predicate Short(b: Bytes) { |b| < 65536 }

  function Entry(m: MemberKey): Bytes { Lp(m.credential) + Lp(m.signatureKey) }

  function Entries(ms: seq<MemberKey>): seq<Bytes> {
    seq(|ms|, i requires 0 <= i < |ms| => Entry(ms[i]))
  }

  predicate FieldsShort(ms: seq<MemberKey>) {
    forall i | 0 <= i < |ms| :: Short(ms[i].credential) && Short(ms[i].signatureKey)
  }

  /** The entries as length-prefixed fields, one after the other. */
  function Fields(entries: seq<Bytes>, n: nat): Bytes
    requires n <= |entries|
    decreases |entries| - n
  {
    if n == |entries| then [] else Lp(entries[n]) + Fields(entries, n + 1)
  }

  function Transcript(group: Bytes, ms: seq<MemberKey>): Outcome<Bytes> {
    if !FieldsShort(ms) then Failed(InvalidIdentity)
    else
      var entries := Sort(Entries(ms));
      if Repeats(entries) || |entries| >= 0x1_0000_0000 then Failed(InvalidState)
      else if !Short(group) || exists i | 0 <= i < |entries| :: !Short(entries[i]) then Failed(InvalidIdentity)
      else Done(Lp(LABEL) + (Lp(group) + (BytesOf(|entries|, 4) + Fields(entries, 0))))
  }

  lemma EntryIsInjective(x: MemberKey, y: MemberKey)
    requires Short(x.credential) && Short(x.signatureKey) && Short(y.credential) && Short(y.signatureKey)
    requires Entry(x) == Entry(y)
    ensures x == y
  {
    LpExact(x.credential, 65535, Entry(x), Lp(x.signatureKey));
    LpExact(y.credential, 65535, Entry(x), Lp(y.signatureKey));
    LpExact(x.signatureKey, 65535, Lp(x.signatureKey), []);
    LpExact(y.signatureKey, 65535, Lp(x.signatureKey), []);
    assert Lp(x.signatureKey) + [] == Lp(x.signatureKey) && Lp(y.signatureKey) + [] == Lp(y.signatureKey);
  }

  lemma {:induction false} FieldsAreInjective(s: seq<Bytes>, t: seq<Bytes>, n: nat)
    requires n <= |s| == |t| && (forall i | 0 <= i < |s| :: Short(s[i]) && Short(t[i]))
    requires Fields(s, n) == Fields(t, n)
    ensures s[n..] == t[n..]
    decreases |s| - n
  {
    if n < |s| {
      LpExact(s[n], 65535, Fields(s, n), Fields(s, n + 1));
      LpExact(t[n], 65535, Fields(s, n), Fields(t, n + 1));
      FieldsAreInjective(s, t, n + 1);
      assert s[n..] == [s[n]] + s[n + 1..] && t[n..] == [t[n]] + t[n + 1..];
    }
  }

  ghost predicate SameMembers(ms: seq<MemberKey>, ns: seq<MemberKey>) { forall m :: m in ms <==> m in ns }

  lemma InEntries(ms: seq<MemberKey>, m: MemberKey)
    requires FieldsShort(ms) && Short(m.credential) && Short(m.signatureKey)
    ensures m in ms <==> Entry(m) in Sort(Entries(ms))
  {
    Sorts(Entries(ms));
    assert Entry(m) in multiset(Sort(Entries(ms))) <==> Entry(m) in multiset(Entries(ms));
    if m in ms {
      var i :| 0 <= i < |ms| && ms[i] == m;
      assert Entries(ms)[i] == Entry(m);
    }
    if Entry(m) in Entries(ms) {
      var i :| 0 <= i < |ms| && Entries(ms)[i] == Entry(m);
      EntryIsInjective(ms[i], m);
    }
  }

  lemma OfEntry(ms: seq<MemberKey>, x: Bytes) returns (m: MemberKey)
    requires FieldsShort(ms) && x in Sort(Entries(ms))
    ensures m in ms && Entry(m) == x
  {
    Sorts(Entries(ms));
    assert x in multiset(Entries(ms));
    var i :| 0 <= i < |ms| && Entries(ms)[i] == x;
    m := ms[i];
  }

  lemma EntriesWithin(ms: seq<MemberKey>, ns: seq<MemberKey>, x: Bytes)
    requires FieldsShort(ms) && FieldsShort(ns) && SameMembers(ms, ns) && x in Sort(Entries(ms))
    ensures x in Sort(Entries(ns))
  {
    var m := OfEntry(ms, x);
    InEntries(ns, m);
  }

  /** Two conversations share a transcript exactly when they are the same group
      with the same members, in whatever order they are listed. */
  lemma TranscriptIsInjective(g: Bytes, ms: seq<MemberKey>, h: Bytes, ns: seq<MemberKey>)
    requires Transcript(g, ms).Done? && Transcript(h, ns).Done?
    ensures Transcript(g, ms) == Transcript(h, ns) <==> g == h && SameMembers(ms, ns)
  {
    if g == h && SameMembers(ms, ns) {
      SameMembersSameEntries(ms, ns);
    }
    if Transcript(g, ms) == Transcript(h, ns) {
      SameTranscriptSameEntries(g, ms, h, ns);
      forall m ensures m in ms <==> m in ns {
        if m in ms {
          InEntries(ms, m);
          InEntries(ns, m);
        }
        if m in ns {
          InEntries(ms, m);
          InEntries(ns, m);
        }
      }
    }
  }

  lemma SameMembersSameEntries(ms: seq<MemberKey>, ns: seq<MemberKey>)
    requires FieldsShort(ms) && FieldsShort(ns) && SameMembers(ms, ns)
    requires !Repeats(Sort(Entries(ms))) && !Repeats(Sort(Entries(ns)))
    ensures Sort(Entries(ms)) == Sort(Entries(ns))
  {
    var s, t := Sort(Entries(ms)), Sort(Entries(ns));
    Sorts(Entries(ms));
    Sorts(Entries(ns));
    SortedRepeats(s);
    SortedRepeats(t);
    forall x ensures x in s <==> x in t {
      if x in s {
        EntriesWithin(ms, ns, x);
      }
      if x in t {
        EntriesWithin(ns, ms, x);
      }
    }
    SameSetSameList(s, t);
  }

  lemma SameTranscriptSameEntries(g: Bytes, ms: seq<MemberKey>, h: Bytes, ns: seq<MemberKey>)
    requires Transcript(g, ms).Done? && Transcript(g, ms) == Transcript(h, ns)
    ensures g == h && Sort(Entries(ms)) == Sort(Entries(ns))
  {
    var s, t := Sort(Entries(ms)), Sort(Entries(ns));
    var x, y := BytesOf(|s|, 4) + Fields(s, 0), BytesOf(|t|, 4) + Fields(t, 0);
    var b := Transcript(g, ms).value;
    assert Full(4) == 0x1_0000_0000;
    LpExact(LABEL, 65535, b, Lp(g) + x);
    LpExact(LABEL, 65535, b, Lp(h) + y);
    LpExact(g, 65535, Lp(g) + x, x);
    LpExact(h, 65535, Lp(g) + x, y);
    NumberExact(|s|, 4, x, Fields(s, 0));
    NumberExact(|t|, 4, x, Fields(t, 0));
    FieldsAreInjective(s, t, 0);
  }

  /** A list whose fields fit is refused for its members exactly when some
      member occurs twice (or there are too many to count). */
  lemma RefusedForRepetition(g: Bytes, ms: seq<MemberKey>)
    requires FieldsShort(ms)
    ensures Transcript(g, ms) == Failed(InvalidState) <==>
            (exists i, j | 0 <= i < j < |ms| :: ms[i] == ms[j]) || |ms| >= 0x1_0000_0000
  {
    var entries := Entries(ms);
    SortFindsRepeats(entries);
    Sorts(entries);
    assert |Sort(entries)| == |multiset(Sort(entries))| == |multiset(entries)| == |ms|;
    if i, j :| 0 <= i < j < |ms| && ms[i] == ms[j] {
      assert entries[i] == entries[j];
    }
    if !Once(entries) {
      var i, j :| 0 <= i < j < |entries| && entries[i] == entries[j];
      EntryIsInjective(ms[i], ms[j]);
    }
  }

  predicate Fits(m: MemberKey) { |m.credential| + |m.signatureKey| + 4 < 65536 }

  lemma EntriesFit(ms: seq<MemberKey>)
    requires FieldsShort(ms)
    ensures (forall x | x in Sort(Entries(ms)) :: Short(x)) <==> forall i | 0 <= i < |ms| :: Fits(ms[i])
  {
    if forall x | x in Sort(Entries(ms)) :: Short(x) {
      forall i | 0 <= i < |ms| ensures Fits(ms[i]) {
        InEntries(ms, ms[i]);
        assert Short(Entry(ms[i]));
      }
    }
    if forall i | 0 <= i < |ms| :: Fits(ms[i]) {
      forall x | x in Sort(Entries(ms)) ensures Short(x) {
        var m := OfEntry(ms, x);
        var i :| 0 <= i < |ms| && ms[i] == m;
        assert Fits(ms[i]);
      }
    }
  }

  /** There is a transcript exactly when the group and every member's entry fit
      their length prefix, no member occurs twice, and they can be counted. */
  lemma GivenExactly(g: Bytes, ms: seq<MemberKey>)
    ensures Transcript(g, ms).Done? <==>
      && |g| < 65536 && |ms| < 0x1_0000_0000 && (forall i | 0 <= i < |ms| :: Fits(ms[i]))
      && (forall i, j | 0 <= i < j < |ms| :: ms[i] != ms[j])
  {
    if FieldsShort(ms) {
      RefusedForRepetition(g, ms);
      EntriesFit(ms);
      var entries := Sort(Entries(ms));
      assert (forall x | x in entries :: Short(x)) <==> !exists i | 0 <= i < |entries| :: !Short(entries[i]);
    } else {
      var i :| 0 <= i < |ms| && !(Short(ms[i].credential) && Short(ms[i].signatureKey));
      assert !Fits(ms[i]);
    }
  }

  method BuildTranscript(group: Bytes, ms: seq<MemberKey>) returns (r: Outcome<Bytes>)
    ensures r == Transcript(group, ms)
  {
    if !FieldsShort(ms) {
      return Failed(InvalidIdentity);
    }
    var entries := Sort(Entries(ms));
    if Repeats(entries) || |entries| >= 0x1_0000_0000 {
      return Failed(InvalidState);
    }
    if !Short(group) {
      return Failed(InvalidIdentity);
    }
    var out := Lp(LABEL) + (Lp(group) + BytesOf(|entries|, 4));
    ghost var goal := Lp(LABEL) + (Lp(group) + (BytesOf(|entries|, 4) + Fields(entries, 0)));
    Join(Lp(LABEL), Lp(group), BytesOf(|entries|, 4), Fields(entries, 0));
    for n := 0 to |entries|
      invariant out + Fields(entries, n) == goal
      invariant forall i | 0 <= i < n :: Short(entries[i])
    {
      if !Short(entries[n]) {
        return Failed(InvalidIdentity);
      }
      assert out + (Lp(entries[n]) + Fields(entries, n + 1)) == (out + Lp(entries[n])) + Fields(entries, n + 1);
      out := out + Lp(entries[n]);
    }
    assert out + [] == out;
    r := Done(out);
  }
}
