/**
 Every legal run of the restore protocol, power losses included, keeps the
 originals and ends with one whole instance.
 */
module RestoreSafety {
  import opened RestoreDisk

  /** The original of an item is at exactly one of its live and .pre-restore
      paths, nothing else holds it, and an uncovered item is untouched. */
  predicate Kept(s: Setup, i: Item, f: Files) {
    && (forall p :: p in f && f[p] == Original ==> p == Live || p == Aside)
    && (Aside in f ==> f[Aside] == Original && Covered(s, i))
    && (i in s.orig <==> Aside in f || (Live in f && f[Live] == Original))
    && !(Aside in f && Live in f && f[Live] == Original)
    && (!Covered(s, i) ==> IsBack(s, i, f))
  }

  ghost predicate AllKept(s: Setup, d: Disk) {
    forall i, f :: f in d.Outcomes(i) ==> Kept(s, i, f)
  }

  /** A restored file at the live path of an item with an original: the
      original is durably aside. */
  ghost predicate Guarded(s: Setup, d: Disk) {
    forall i :: i in s.orig && LiveIs(d, i, Restored) ==> forall f :: f in d.Outcomes(i) ==> Aside in f
  }

  ghost predicate JournalsOk(s: Setup, d: Disk) {
    forall j :: j in d.journal.Outcomes() && j.Some? ==> j.value == JournalFor(s, j.value.state)
  }

  ghost predicate MayBe(s: Setup, d: Disk, state: State) {
    Some(JournalFor(s, state)) in d.journal.Outcomes()
  }

  ghost predicate Inv(s: Setup, d: Disk) {
    && AllKept(s, d)
    && Guarded(s, d)
    && JournalsOk(s, d)
    && (MayBe(s, d, Activated) ==> AllSwapped(s, d))
    && (None in d.journal.Outcomes() ==> AllBack(s, d) || AllSwapped(s, d))
    && (StateIs(d, Activating) ==> !MayBe(s, d, Activated) && (None in d.journal.Outcomes() ==> AllBack(s, d)))
  }

  // Slots

  lemma {:induction false} NowSurvives(base: Files, log: seq<Op>)
    ensures Replay(base, log) in Survivors(base, log)
  {
    if log != [] {
      NowSurvives(base, log[..|log| - 1]);
    }
  }

  lemma NowIsOutcome(d: Disk)
    ensures forall i :: d.Now(i) in d.Outcomes(i)
    ensures d.journal.Now() in d.journal.Outcomes()
  {
    forall i ensures d.Now(i) in d.Outcomes(i) {
      NowSurvives(d.At(i).base, d.At(i).log);
    }
  }

  /** What one more operation on a slot adds to its outcomes. */
  lemma DoOutcomes(slot: Slot, op: Op)
    ensures slot.Do(op).Now() == Apply(op, slot.Now())
    ensures slot.Do(op).Outcomes() == slot.Outcomes() + set f | f in slot.Outcomes() :: Apply(op, f)
  {
    assert (slot.log + [op])[..|slot.log|] == slot.log;
  }

  lemma OtherSlots(s: Setup, d: Disk, i: Item, op: Op)
    ensures var d' := Effect(s, d, Action.Do(i, op));
            && d'.At(i) == d.At(i).Do(op)
            && (forall k :: k != i ==> d'.At(k) == d.At(k))
            && d'.journal == d.journal
  {
  }

  // One step at a time

  /** An outcome after an operation is an old one, or the operation applied to
      an old outcome of the same item. */
  lemma OutcomeOrigin(s: Setup, d: Disk, i: Item, op: Op, k: Item, f: Files)
    requires f in Effect(s, d, Action.Do(i, op)).Outcomes(k)
    ensures f in d.Outcomes(k) || (k == i && exists g :: g in d.Outcomes(i) && f == Apply(op, g))
  {
    DoOutcomes(d.At(i), op);
    OtherSlots(s, d, i, op);
  }

  /** The operation leaves the item's live file alone. */
  ghost predicate Harmless(s: Setup, d: Disk, i: Item, op: Op) {
    forall f :: f in d.Outcomes(i) ==>
      (IsBack(s, i, f) ==> IsBack(s, i, Apply(op, f))) && (IsSwapped(s, i, f) ==> IsSwapped(s, i, Apply(op, f)))
  }

  lemma DoKept(s: Setup, d: Disk, i: Item, op: Op)
    requires AllKept(s, d) && forall f :: f in d.Outcomes(i) ==> Kept(s, i, Apply(op, f))
    ensures AllKept(s, Effect(s, d, Action.Do(i, op)))
  {
    var d' := Effect(s, d, Action.Do(i, op));
    forall k, f | f in d'.Outcomes(k) ensures Kept(s, k, f) {
      OutcomeOrigin(s, d, i, op, k, f);
    }
  }

  lemma DoSides(s: Setup, d: Disk, i: Item, op: Op)
    requires Harmless(s, d, i, op)
    ensures AllBack(s, d) ==> AllBack(s, Effect(s, d, Action.Do(i, op)))
    ensures AllSwapped(s, d) ==> AllSwapped(s, Effect(s, d, Action.Do(i, op)))
  {
    var d' := Effect(s, d, Action.Do(i, op));
    forall k, f | f in d'.Outcomes(k)
      ensures AllBack(s, d) ==> IsBack(s, k, f)
      ensures AllSwapped(s, d) ==> IsSwapped(s, k, f)
    {
      OutcomeOrigin(s, d, i, op, k, f);
    }
  }

  lemma DoGuarded(s: Setup, d: Disk, i: Item, op: Op)
    requires Guarded(s, d)
    requires var now := Apply(op, d.Now(i));
             i in s.orig && Live in now && now[Live] == Restored ==>
               forall f :: f in d.Outcomes(i) ==> Aside in f && Aside in Apply(op, f)
    ensures Guarded(s, Effect(s, d, Action.Do(i, op)))
  {
    var d' := Effect(s, d, Action.Do(i, op));
    OtherSlots(s, d, i, op);
    forall k | k in s.orig && LiveIs(d', k, Restored) ensures forall f :: f in d'.Outcomes(k) ==> Aside in f {
      if k == i {
        DoOutcomes(d.At(i), op);
      } else {
        assert d'.At(k) == d.At(k) && LiveIs(d, k, Restored);
      }
    }
  }

  /** One operation on one item keeps the invariant when every outcome stays
      kept and, unless the journal is surely "activating", no live file moves. */
  lemma DoStep(s: Setup, d: Disk, i: Item, op: Op)
    requires Inv(s, d)
    requires forall f :: f in d.Outcomes(i) ==> Kept(s, i, Apply(op, f))
    requires var now := Apply(op, d.Now(i));
             i in s.orig && Live in now && now[Live] == Restored ==>
               forall f :: f in d.Outcomes(i) ==> Aside in f && Aside in Apply(op, f)
    requires (StateIs(d, Activating) && None !in d.journal.Outcomes()) || Harmless(s, d, i, op)
    ensures Inv(s, Effect(s, d, Action.Do(i, op)))
  {
    DoKept(s, d, i, op);
    DoGuarded(s, d, i, op);
    OtherSlots(s, d, i, op);
    if Harmless(s, d, i, op) {
      DoSides(s, d, i, op);
    }
  }

  /** Nothing is withdrawn or put back where the original is live already. */
  lemma NothingToMove(s: Setup, d: Disk, i: Item)
    requires Inv(s, d) && AllBack(s, d)
    ensures !LiveIs(d, i, Restored) && Aside !in d.Now(i)
  {
    NowIsOutcome(d);
    assert IsBack(s, i, d.Now(i)) && Kept(s, i, d.Now(i));
  }

  lemma NotBoth(s: Setup, d: Disk)
    ensures !AllBack(s, d) || !AllSwapped(s, d)
  {
    NowIsOutcome(d);
    var f := d.Now(Db);
    assert !IsBack(s, Db, f) || !IsSwapped(s, Db, f);
  }

  lemma MoveStep(s: Setup, d: Disk, i: Item, op: Op)
    requires Inv(s, d) && Allowed(s, d, Action.Do(i, op)) && op.Move?
    ensures Inv(s, Effect(s, d, Action.Do(i, op)))
  {
    NowIsOutcome(d);
    assert d.journal.Now().value == JournalFor(s, Activating);
    assert Kept(s, i, d.Now(i));
    if AllBack(s, d) {
      NothingToMove(s, d, i);
    }
    forall f | f in d.Outcomes(i) ensures Kept(s, i, Apply(op, f)) {
      assert Kept(s, i, f);
    }
    DoStep(s, d, i, op);
  }

  /** Staging may change freely: no outcome loses a live or preserved file. */
  lemma StagingStep(s: Setup, d: Disk, i: Item, op: Op)
    requires Inv(s, d) && op in {Create(Staged), DropStaging}
    ensures Inv(s, Effect(s, d, Action.Do(i, op)))
  {
    NowIsOutcome(d);
    forall f | f in d.Outcomes(i) ensures Kept(s, i, Apply(op, f)) {
      assert Kept(s, i, f);
    }
    DoStep(s, d, i, op);
  }

  lemma CompanionStep(s: Setup, d: Disk, i: Item, op: Op)
    requires Inv(s, d) && Allowed(s, d, Action.Do(i, op)) && op in {Create(Live), Delete(Live)}
    ensures Inv(s, Effect(s, d, Action.Do(i, op)))
  {
    NowIsOutcome(d);
    forall f | f in d.Outcomes(i)
      ensures Kept(s, i, Apply(op, f))
      ensures i in s.orig ==> Aside in f && Aside in Apply(op, f)
    {
      assert Kept(s, i, f);
    }
    DoStep(s, d, i, op);
  }

  lemma JournalStep(s: Setup, d: Disk, a: Action)
    requires Inv(s, d) && Allowed(s, d, a) && (a.WriteJournal? || a.RemoveJournal?)
    ensures Inv(s, Effect(s, d, a))
  {
    NowIsOutcome(d);
    var d' := Effect(s, d, a);
    var j := if a.WriteJournal? then Some(JournalFor(s, a.state)) else None;
    assert d'.journal.Outcomes() == d.journal.Outcomes() + {j};
    assert d'.journal.Now() == j;
    assert forall i :: d'.At(i) == d.At(i);
    assert AllBack(s, d') == AllBack(s, d) && AllSwapped(s, d') == AllSwapped(s, d);
    NotBoth(s, d);
  }

  lemma SubsetStep(s: Setup, d: Disk, d': Disk)
    requires Inv(s, d)
    requires forall i :: d'.Outcomes(i) <= d.Outcomes(i)
    requires d'.journal.Outcomes() <= d.journal.Outcomes()
    requires (forall i :: d'.Now(i) == d.Now(i)) || (forall i :: d'.At(i).log == [])
    requires d'.journal.Now() == d.journal.Now() || d'.journal.log == []
    ensures Inv(s, d')
  {
    NowIsOutcome(d');
    forall i | i in s.orig && LiveIs(d', i, Restored)
      ensures forall f :: f in d'.Outcomes(i) ==> Aside in f
    {
      assert Kept(s, i, d'.Now(i));
    }
    if StateIs(d', Activating) && d'.journal.Now() != d.journal.Now() {
      assert d'.journal.Outcomes() == {d'.journal.Now()};
    }
  }

  lemma FlushOutcomes(slot: Slot)
    ensures slot.Flush().Now() == slot.Now()
    ensures slot.Flush().Outcomes() == {slot.Now()} <= slot.Outcomes()
  {
    NowSurvives(slot.base, slot.log);
  }

  lemma SyncStep(s: Setup, d: Disk, a: Action)
    requires Inv(s, d) && (a.SyncMain? || a.SyncBlobs?)
    ensures Inv(s, Effect(s, d, a))
  {
    var d' := Effect(s, d, a);
    forall i ensures d'.Outcomes(i) <= d.Outcomes(i) && d'.Now(i) == d.Now(i) {
      FlushOutcomes(d.At(i));
    }
    SubsetStep(s, d, d');
  }

  lemma StepKeeps(s: Setup, d: Disk, e: Event)
    requires Inv(s, d) && Legal(s, d, e)
    ensures Inv(s, After(s, d, e))
  {
    match e
    case PowerLoss(left) =>
      forall i ensures left.Outcomes(i) <= d.Outcomes(i) {
        assert left.At(i).log == [];
      }
      SubsetStep(s, d, left);
    case Act(a) =>
      match a
      case WriteJournal(_) => JournalStep(s, d, a);
      case RemoveJournal => JournalStep(s, d, a);
      case SyncMain => SyncStep(s, d, a);
      case SyncBlobs => SyncStep(s, d, a);
      case Do(i, op) =>
        if op.Move? {
          MoveStep(s, d, i, op);
        } else if op in {Create(Staged), DropStaging} {
          StagingStep(s, d, i, op);
        } else {
          CompanionStep(s, d, i, op);
        }
  }

  lemma InitialHolds(s: Setup, d: Disk)
    requires Initial(s, d)
    ensures Inv(s, d) && AllBack(s, d)
  {
    forall i ensures d.Outcomes(i) == {if i in s.orig then map[Live := Original] else map[]} {
      assert d.At(i).log == [];
    }
  }

  lemma {:induction false} RunKeeps(s: Setup, d: Disk, es: seq<Event>)
    requires Initial(s, d) && LegalRun(s, d, es)
    ensures Inv(s, Exec(s, d, es))
  {
    if es == [] {
      InitialHolds(s, d);
    } else {
      RunKeeps(s, d, es[..|es| - 1]);
      StepKeeps(s, Exec(s, d, es[..|es| - 1]), es[|es| - 1]);
    }
  }

  // The promises

  predicate WholeOriginal(s: Setup, d: Disk) { forall i :: IsBack(s, i, d.Now(i)) }

  predicate WholeRestored(s: Setup, d: Disk) { forall i :: IsSwapped(s, i, d.Now(i)) }

  /** All or nothing: after any run, once the journal is gone the live files are
      the whole original or the whole restored instance. */
  lemma AllOrNothing(s: Setup, d: Disk, es: seq<Event>)
    requires Initial(s, d) && LegalRun(s, d, es)
    requires Exec(s, d, es).journal.Now().None?
    ensures WholeOriginal(s, Exec(s, d, es)) || WholeRestored(s, Exec(s, d, es))
  {
    RunKeeps(s, d, es);
    NowIsOutcome(Exec(s, d, es));
  }

  /** No original is ever lost: at every point of every run each one is at
      exactly one of its live and .pre-restore paths, and never in staging. */
  lemma OriginalsKept(s: Setup, d: Disk, es: seq<Event>, i: Item)
    requires Initial(s, d) && LegalRun(s, d, es) && i in s.orig
    ensures var f := Exec(s, d, es).Now(i);
            && ((Aside in f) != (Live in f && f[Live] == Original))
            && (Aside in f ==> f[Aside] == Original)
            && forall p :: p in f && f[p] == Original ==> p == Live || p == Aside
  {
    RunKeeps(s, d, es);
    NowIsOutcome(Exec(s, d, es));
    assert Kept(s, i, Exec(s, d, es).Now(i));
  }
}
