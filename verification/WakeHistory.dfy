/**
 The wake journal against the history of its operations: which wake is pending,
 what each operation answers, and which notice stands, read off the operations
 alone.
 */
module WakeHistory {
  import opened WakeJournal

  const EMPTY := Journal(0, 0, None, map[], 0)

  /** The operation's change reached the storage. */
  predicate Saved(fault: Fault) { fault.Fine? || fault.SaveFailsAfter? }

  function Marks(ops: seq<Op>): nat {
    if ops == [] then 0
    else
      var op := ops[|ops| - 1];
      Marks(ops[..|ops| - 1]) + if op.MarkOp? && Saved(op.fault) then 1 else 0
  }

  /** Operation i marked a wake; its generation is the number of marks so far. */
  predicate Marked(ops: seq<Op>, i: nat)
    requires i < |ops|
  {
    ops[i].MarkOp? && Saved(ops[i].fault) && Marks(ops[..i]) < MAX_SEQUENCE
  }

  function Generation(ops: seq<Op>, i: nat): nat
    requires i < |ops|
  {
    Marks(ops[..i]) + 1
  }

  /** An operation that ends generation g: its acknowledgement, or an unbinding. */
  predicate Ends(op: Op, g: int) {
    || (op.AckOp? && op.generation == g && Saved(op.fault))
    || (op.BindOp? && op.profile.None? && Saved(op.fault))
  }

  /** Operation i marked a wake that nothing since has replaced or ended. */
  ghost predicate Stands(ops: seq<Op>, i: nat) {
    && i < |ops| && Marked(ops, i)
    && forall k | i < k < |ops| :: !Marked(ops, k) && !Ends(ops[k], Generation(ops, i))
  }

  lemma StandsNext(ops: seq<Op>, i: nat)
    requires i < |ops| - 1
    ensures var front := ops[..|ops| - 1];
      && (Marked(ops, i) <==> Marked(front, i)) && Generation(ops, i) == Generation(front, i)
      && (Stands(ops, i) <==> Stands(front, i) && !Marked(ops, |front|) && !Ends(ops[|front|], Generation(ops, i)))
  {
    var front := ops[..|ops| - 1];
    forall k | 0 <= k < |front| ensures Marked(ops, k) <==> Marked(front, k) {
      assert ops[..k] == front[..k];
    }
    assert ops[..i] == front[..i];
    if Stands(ops, i) {
      forall k | i < k < |front| ensures !Marked(front, k) && !Ends(front[k], Generation(front, i)) {
        assert !Marked(ops, k) && !Ends(ops[k], Generation(ops, i));
      }
    }
  }

  /** The counter is the number of marks, and what is pending is the generation of
      the one mark that stands. */
  ghost predicate Follows(j: Journal, ops: seq<Op>) {
    && j.sequence == (if Marks(ops) < MAX_SEQUENCE then Marks(ops) else MAX_SEQUENCE)
    && 0 <= j.pending
    && (forall i: nat | Stands(ops, i) :: j.pending == Generation(ops, i))
    && (j.pending > 0 ==> exists i: nat :: Stands(ops, i))
  }

  /** What one more operation does to a journal that follows the history. */
  lemma OneMore(ops: seq<Op>, j: Journal)
    requires ops != [] && Follows(j, ops[..|ops| - 1])
    ensures var n := |ops| - 1;
      var q := After(j, ops[n]);
      && q.sequence == (if Marks(ops) < MAX_SEQUENCE then Marks(ops) else MAX_SEQUENCE)
      && q.pending == if Marked(ops, n) then Generation(ops, n) else if Ends(ops[n], j.pending) then 0 else j.pending
  {
  }

  lemma StillStands(ops: seq<Op>, j: Journal, i: nat)
    requires ops != [] && Follows(j, ops[..|ops| - 1]) && Stands(ops, i)
    ensures After(j, ops[|ops| - 1]).pending == Generation(ops, i)
  {
    OneMore(ops, j);
    if i < |ops| - 1 {
      StandsNext(ops, i);
    }
  }

  lemma OneStands(ops: seq<Op>, j: Journal) returns (i: nat)
    requires ops != [] && Follows(j, ops[..|ops| - 1]) && After(j, ops[|ops| - 1]).pending > 0
    ensures Stands(ops, i)
  {
    OneMore(ops, j);
    i := |ops| - 1;
    if !Marked(ops, i) {
      i :| Stands(ops[..|ops| - 1], i);
      StandsNext(ops, i);
    }
  }

  lemma {:induction false} PendingExactly(ops: seq<Op>)
    ensures Follows(Run(EMPTY, ops), ops)
  {
    if ops != [] {
      var front := ops[..|ops| - 1];
      var j := Run(EMPTY, front);
      PendingExactly(front);
      OneMore(ops, j);
      forall i: nat | Stands(ops, i) ensures Run(EMPTY, ops).pending == Generation(ops, i) {
        StillStands(ops, j, i);
      }
      if Run(EMPTY, ops).pending > 0 {
        var i := OneStands(ops, j);
      }
    }
  }

  /** A mark answers with its own, new generation; an acknowledgement says yes
      exactly to the generation that stands; and both only when the save was
      clean. */
  lemma AnswersExactly(ops: seq<Op>, fault: Fault, g: int)
    requires g > 0
    ensures var j := Run(EMPTY, ops);
      && (Mark(j, fault).1 == Some(g) <==> fault.Fine? && Marks(ops) < MAX_SEQUENCE && g == Marks(ops) + 1)
      && (Acknowledge(j, g, fault).1 == Returned(true) <==>
            fault.Fine? && exists i: nat :: Stands(ops, i) && Generation(ops, i) == g)
  {
    PendingExactly(ops);
  }

  // Notices

  /** Operation i recorded a notice for key at the given time. */
  predicate Recorded(ops: seq<Op>, i: nat, key: Key, time: int) {
    i < |ops| && ops[i].ClaimOp? && ops[i].key == key && ops[i].now == time && Saved(ops[i].fault)
  }

  lemma {:induction false} NoticeHasCause(ops: seq<Op>, key: Key) returns (i: nat)
    requires key in Run(EMPTY, ops).notices
    ensures Recorded(ops, i, key, Run(EMPTY, ops).notices[key])
  {
    var n := |ops| - 1;
    var front := Run(EMPTY, ops[..n]);
    if key in front.notices && front.notices[key] == Run(EMPTY, ops).notices[key] {
      i := NoticeHasCause(ops[..n], key);
    } else {
      i := n;
    }
  }

  lemma {:induction false} ClockHasCause(ops: seq<Op>) returns (i: nat)
    requires Run(EMPTY, ops).noticeClock != 0
    ensures i < |ops| && ops[i].ClaimOp? && Saved(ops[i].fault) && ops[i].now == Run(EMPTY, ops).noticeClock
  {
    var n := |ops| - 1;
    if Run(EMPTY, ops[..n]).noticeClock == Run(EMPTY, ops).noticeClock {
      i := ClockHasCause(ops[..n]);
    } else {
      i := n;
    }
  }

  /** A claim on storage that works is answered no only when the same notice was
      recorded within the hour, and refused only when a later time was claimed
      before or the hour already holds the most notices kept. */
  lemma NoticeRefusedForCause(ops: seq<Op>, key: Key, now: int)
    requires now >= 0
    ensures var j := Run(EMPTY, ops);
      var r := ClaimNotice(j, key, now, Fine).1;
      && (r == Some(false) ==> exists i: nat, time :: Recorded(ops, i, key, time) && now <= time + NOTICE_WINDOW)
      && (r == None ==> || (exists i | 0 <= i < |ops| :: ops[i].ClaimOp? && Saved(ops[i].fault) && ops[i].now > now)
                        || |j.notices| >= MAX_NOTICES)
  {
    var j := Run(EMPTY, ops);
    if now < j.noticeClock {
      var i := ClockHasCause(ops);
      assert ops[i].now > now;
    } else if key in j.notices {
      var i := NoticeHasCause(ops, key);
      assert Recorded(ops, i, key, j.notices[key]);
    }
    var recent := map k | k in j.notices && now - j.notices[k] <= NOTICE_WINDOW :: j.notices[k];
    assert recent.Keys <= j.notices.Keys;
    FewerKeys(recent.Keys, j.notices.Keys);
    assert |recent| == |recent.Keys| && |j.notices| == |j.notices.Keys|;
  }

  lemma {:induction false} FewerKeys(a: set<Key>, b: set<Key>)
    requires a <= b
    ensures |a| <= |b|
    decreases a
  {
    if k :| k in a {
      FewerKeys(a - {k}, b - {k});
    }
  }
}
