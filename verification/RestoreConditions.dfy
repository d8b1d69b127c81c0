/**
 Two promises of the restore that a power loss can break, with the exact
 condition of each: which files can meet, and when an outcome is final. On the
 way, that an interrupted restore can always be rolled back to the end.
 */
module RestoreConditions {
  import opened RestoreDisk
  import opened RestoreSafety
  import opened RestoreTheorems

  // When the restored database can meet an original companion

  /** The restored file was live at the last directory sync or renamed in since. */
  predicate RestoredSince(slot: Slot) { (Live in slot.base && slot.base[Live] == Restored) || Move(Staged, Live) in slot.log }

  /** The original was live at the last directory sync or renamed back since. */
  predicate OriginalSince(slot: Slot) { (Live in slot.base && slot.base[Live] == Original) || Move(Aside, Live) in slot.log }

  /** The operations the protocol performs on an item. */
  predicate Usual(i: Item, op: Op) {
    match op
    case Move(from, to) =>
      || (from == Live && to != Live && to != Staged)
      || (to == Live && (from == Aside || (from == Staged && !Companion(i))))
    case Create(at) => at == Staged || (at == Live && Companion(i))
    case Delete(at) => at == Live && Companion(i)
    case DropStaging => true
  }

  ghost predicate CanBeLive(d: Disk, i: Item, c: Content) { exists f :: f in d.Outcomes(i) && Live in f && f[Live] == c }

  /** Every pending operation of an item is a usual one, and each rename onto its
      live path had something to rename. */
  ghost predicate ItemTraced(d: Disk, i: Item) {
    && (forall op :: op in d.At(i).log ==> Usual(i, op))
    && (i == Db && Move(Staged, Live) in d.At(i).log ==> CanBeLive(d, i, Restored))
    && (Companion(i) && Move(Aside, Live) in d.At(i).log ==> CanBeLive(d, i, Original))
  }

  ghost predicate Traced(d: Disk) { forall i :: ItemTraced(d, i) }

  lemma UsualOp(s: Setup, d: Disk, i: Item, op: Op)
    requires Allowed(s, d, Action.Do(i, op))
    ensures Usual(i, op)
  {
  }

  lemma SourceIs(s: Setup, d: Disk, i: Item, op: Op)
    requires AllKept(s, d) && Allowed(s, d, Action.Do(i, op)) && op.Move? && op.to == Live
    ensures op.from in d.Now(i) && (op.from == Staged || op.from == Aside)
    ensures d.Now(i)[op.from] == if op.from == Staged then Restored else Original
  {
    NowIsOutcome(d);
    assert Kept(s, i, d.Now(i));
  }

  /** A rename onto a live path puts there what the path it came from held. */
  lemma PutsLive(s: Setup, d: Disk, i: Item, op: Op)
    requires op.Move? && op.to == Live && op.from in d.Now(i)
    ensures CanBeLive(Effect(s, d, Action.Do(i, op)), i, d.Now(i)[op.from])
  {
    var d' := Effect(s, d, Action.Do(i, op));
    NowIsOutcome(d');
    NowAfter(s, d, Action.Do(i, op), i);
    assert d'.Now(i) in d'.Outcomes(i);
  }

  lemma StaysPossible(d: Disk, d': Disk, i: Item, c: Content)
    requires CanBeLive(d, i, c) && d.Outcomes(i) <= d'.Outcomes(i)
    ensures CanBeLive(d', i, c)
  {
    var f :| f in d.Outcomes(i) && Live in f && f[Live] == c;
    assert f in d'.Outcomes(i);
  }

  lemma TracedDo(s: Setup, d: Disk, i: Item, op: Op)
    requires Inv(s, d) && ItemTraced(d, i) && Allowed(s, d, Action.Do(i, op))
    ensures ItemTraced(Effect(s, d, Action.Do(i, op)), i)
  {
    var d' := Effect(s, d, Action.Do(i, op));
    assert d'.At(i).log == d.At(i).log + [op] && d.Outcomes(i) <= d'.Outcomes(i) by {
      OtherSlots(s, d, i, op);
      DoOutcomes(d.At(i), op);
    }
    UsualOp(s, d, i, op);
    if op.Move? && op.to == Live {
      SourceIs(s, d, i, op);
      PutsLive(s, d, i, op);
    }
    if CanBeLive(d, i, Restored) {
      StaysPossible(d, d', i, Restored);
    }
    if CanBeLive(d, i, Original) {
      StaysPossible(d, d', i, Original);
    }
  }

  lemma TracedStep(s: Setup, d: Disk, e: Event)
    requires Inv(s, d) && Traced(d) && Legal(s, d, e)
    ensures Traced(After(s, d, e))
  {
    var d' := After(s, d, e);
    forall i ensures ItemTraced(d', i) {
      assert ItemTraced(d, i);
      if e.Act? && e.a.Do? {
        OtherSlots(s, d, e.a.i, e.a.op);
        if i == e.a.i {
          TracedDo(s, d, i, e.a.op);
        } else {
          assert d'.At(i) == d.At(i);
        }
      } else {
        assert d'.At(i).log == [] || d'.At(i) == d.At(i);
      }
    }
  }

  lemma {:induction false} RunTraced(s: Setup, d: Disk, es: seq<Event>)
    requires Initial(s, d) && LegalRun(s, d, es)
    ensures Traced(Exec(s, d, es))
  {
    if es == [] {
      forall i ensures ItemTraced(d, i) {
        assert d.At(i).log == [];
      }
    } else {
      RunTraced(s, d, es[..|es| - 1]);
      RunKeeps(s, d, es[..|es| - 1]);
      TracedStep(s, Exec(s, d, es[..|es| - 1]), es[|es| - 1]);
    }
  }

  lemma {:induction false} OnlyRestoredSince(base: Files, log: seq<Op>, f: Files)
    requires f in Survivors(base, log) && Live in f && f[Live] == Restored && forall op :: op in log ==> Usual(Db, op)
    requires forall g :: g in Survivors(base, log) && Aside in g ==> g[Aside] == Original
    ensures RestoredSince(Slot(base, log))
  {
    if log != [] {
      var front, op := log[..|log| - 1], log[|log| - 1];
      assert op in log && forall x :: x in front ==> x in log;
      var g :| g in Survivors(base, front) && (f == g || f == Apply(op, g));
      if Live in g && g[Live] == Restored {
        OnlyRestoredSince(base, front, g);
      }
    }
  }

  lemma {:induction false} OnlyOriginalSince(i: Item, base: Files, log: seq<Op>, f: Files)
    requires Companion(i) && f in Survivors(base, log) && Live in f && f[Live] == Original
    requires forall op :: op in log ==> Usual(i, op)
    ensures OriginalSince(Slot(base, log))
  {
    if log != [] {
      var front, op := log[..|log| - 1], log[|log| - 1];
      assert op in log && forall x :: x in front ==> x in log;
      var g :| g in Survivors(base, front) && (f == g || f == Apply(op, g));
      if Live in g && g[Live] == Original {
        OnlyOriginalSince(i, base, front, g);
      }
    }
  }

  /** What can be live after a power loss, read off what is synced and pending. */
  lemma CanBeLiveExactly(s: Setup, d: Disk, i: Item)
    requires Inv(s, d) && Traced(d) && Companion(i)
    ensures CanBeLive(d, Db, Restored) <==> RestoredSince(d.db)
    ensures CanBeLive(d, i, Original) <==> OriginalSince(d.At(i))
  {
    assert ItemTraced(d, Db) && ItemTraced(d, i) && d.At(Db) == d.db;
    BaseSurvives(d.db.base, d.db.log);
    BaseSurvives(d.At(i).base, d.At(i).log);
    assert d.db.base in d.Outcomes(Db) && d.At(i).base in d.Outcomes(i);
    if CanBeLive(d, Db, Restored) {
      var f :| f in d.Outcomes(Db) && Live in f && f[Live] == Restored;
      forall g | g in d.Outcomes(Db) && Aside in g ensures g[Aside] == Original {
        assert Kept(s, Db, g);
      }
      assert d.At(Db) == d.db;
      OnlyRestoredSince(d.db.base, d.db.log, f);
    }
    if CanBeLive(d, i, Original) {
      var f :| f in d.Outcomes(i) && Live in f && f[Live] == Original;
      OnlyOriginalSince(i, d.At(i).base, d.At(i).log, f);
    }
  }

  /** What a power loss leaves when the database keeps one outcome and a
      companion another. */
  function Left(d: Disk, i: Item, f: Files, g: Files): Disk
    requires Companion(i)
  {
    Disk(Slot(f, []), if i == Wal then Slot(g, []) else d.wal.Flush(), if i == Shm then Slot(g, []) else d.shm.Flush(),
         d.blobs.Flush(), d.journal.Flush())
  }

  lemma LeftSurvives(d: Disk, i: Item, f: Files, g: Files)
    requires Companion(i) && f in d.Outcomes(Db) && g in d.Outcomes(i)
    ensures Survives(d, Left(d, i, f, g))
  {
    NowIsOutcome(d);
    forall k ensures Left(d, i, f, g).At(k).log == [] && Left(d, i, f, g).At(k).base in d.Outcomes(k) {
      assert d.Now(k) in d.Outcomes(k);
    }
  }

  /** A power loss can leave the restored database live beside an original -wal
      or -shm exactly when, at the last directory sync or since, the one was
      renamed in and the other renamed back (or was there). */
  lemma MeetExactly(s: Setup, d: Disk, es: seq<Event>, i: Item)
    requires Initial(s, d) && LegalRun(s, d, es) && Companion(i)
    ensures var x := Exec(s, d, es);
            (exists left :: Survives(x, left) && Beside(left, i)) <==> RestoredSince(x.db) && OriginalSince(x.At(i))
  {
    var x := Exec(s, d, es);
    RunKeeps(s, d, es);
    RunTraced(s, d, es);
    CanBeLiveExactly(s, x, i);
    if RestoredSince(x.db) && OriginalSince(x.At(i)) {
      var f :| f in x.Outcomes(Db) && Live in f && f[Live] == Restored;
      var g :| g in x.Outcomes(i) && Live in g && g[Live] == Original;
      LeftSurvives(x, i, f, g);
      assert Beside(Left(x, i, f, g), i);
    }
    if left :| Survives(x, left) && Beside(left, i) {
      assert left.At(Db).log == [] && left.At(i).log == [];
      assert left.Now(Db) in x.Outcomes(Db) && left.Now(i) in x.Outcomes(i);
    }
  }

  /** So no state of a run has them live together unless power was lost at such
      a moment; while power stays on, none has. */
  lemma {:induction false} NeverBeside(s: Setup, d: Disk, es: seq<Event>, i: Item)
    requires Initial(s, d) && LegalRun(s, d, es) && Companion(i)
    requires forall k :: 0 <= k < |es| && es[k].PowerLoss? ==>
               var x := Exec(s, d, es[..k]); !RestoredSince(x.db) || !OriginalSince(x.At(i))
    ensures !Beside(Exec(s, d, es), i)
  {
    if es == [] {
      assert d.At(Db).log == [];
    } else {
      var n := |es| - 1;
      forall k | 0 <= k < n ensures es[..n][..k] == es[..k] {
      }
      NeverBeside(s, d, es[..n], i);
      RunKeeps(s, d, es[..n]);
      NowIsOutcome(Exec(s, d, es[..n]));
      if es[n].Act? {
        BesideStep(s, Exec(s, d, es[..n]), es[n].a, i);
      } else {
        MeetExactly(s, d, es[..n], i);
      }
    }
  }

  // Rolling back to the end

  /** x follows d without a journal being written: nobody starts a restore. */
  ghost predicate Leads(s: Setup, d: Disk, x: Disk) {
    exists es :: LegalRun(s, d, es) && NoWrites(es) && Exec(s, d, es) == x
  }

  predicate NoWrites(es: seq<Event>) { forall k :: 0 <= k < |es| ==> es[k].Act? ==> !es[k].a.WriteJournal? }

  lemma LeadsNowhere(s: Setup, d: Disk)
    ensures Leads(s, d, d)
  {
    assert LegalRun(s, d, []) && NoWrites([]) && Exec(s, d, []) == d;
  }

  lemma LeadsOn(s: Setup, d: Disk, x: Disk, e: Event)
    requires Leads(s, d, x) && Legal(s, x, e) && (e.Act? ==> !e.a.WriteJournal?)
    ensures Leads(s, d, After(s, x, e))
  {
    var es :| LegalRun(s, d, es) && NoWrites(es) && Exec(s, d, es) == x;
    Extend(s, d, es, e);
  }

  /** A step of a rollback in progress. */
  lemma RollOn(s: Setup, d: Disk, x: Disk, a: Action) returns (y: Disk)
    requires Leads(s, d, x) && Inv(s, x) && Allowed(s, x, a) && !a.WriteJournal?
    ensures y == Effect(s, x, a) && Leads(s, d, y) && Inv(s, y)
  {
    y := Effect(s, x, a);
    LeadsOn(s, d, x, Act(a));
    StepKeeps(s, x, Act(a));
  }

  lemma MayWithdraw(s: Setup, x: Disk, i: Item)
    requires AllKept(s, x) && x.journal.Now() == Some(JournalFor(s, Activating)) && !IsBack(s, i, x.Now(i)) && Live in x.Now(i)
    ensures Allowed(s, x, Action.Do(i, Move(Live, Withdrawn(0))))
  {
    NowIsOutcome(x);
    assert Kept(s, i, x.Now(i));
  }

  lemma JournalIs(s: Setup, x: Disk)
    requires JournalsOk(s, x) && StateIs(x, Activating)
    ensures x.journal.Now() == Some(JournalFor(s, Activating))
  {
    assert x.journal.Now() in x.journal.Outcomes();
  }

  lemma Withdraw(s: Setup, d: Disk, x: Disk, i: Item) returns (y: Disk)
    requires Leads(s, d, x) && Inv(s, x) && StateIs(x, Activating) && !IsBack(s, i, x.Now(i))
    ensures Leads(s, d, y) && Inv(s, y) && y.journal == x.journal && Live !in y.Now(i)
    ensures forall k :: k != i ==> y.At(k) == x.At(k)
  {
    y := x;
    if Live in x.Now(i) {
      JournalIs(s, x);
      MayWithdraw(s, x, i);
      var a := Action.Do(i, Move(Live, Withdrawn(0)));
      y := RollOn(s, d, x, a);
      NowAfter(s, x, a, i);
    }
  }

  lemma Return(s: Setup, d: Disk, x: Disk, i: Item) returns (y: Disk)
    requires Leads(s, d, x) && Inv(s, x) && StateIs(x, Activating) && Live !in x.Now(i) && i in s.orig
    requires Companion(i) ==> !LiveIs(x, Db, Restored)
    ensures Leads(s, d, y) && Inv(s, y) && y.journal == x.journal && IsBack(s, i, y.Now(i))
    ensures forall k :: k != i ==> y.At(k) == x.At(k)
  {
    NowIsOutcome(x);
    assert Kept(s, i, x.Now(i));
    var a := Action.Do(i, Move(Aside, Live));
    y := RollOn(s, d, x, a);
    NowAfter(s, x, a, i);
  }

  /** One item rolled back: what is live is withdrawn, the original put back. */
  lemma PutBack(s: Setup, d: Disk, x: Disk, i: Item) returns (y: Disk)
    requires Leads(s, d, x) && Inv(s, x) && StateIs(x, Activating)
    requires Companion(i) ==> !LiveIs(x, Db, Restored)
    ensures Leads(s, d, y) && Inv(s, y) && y.journal == x.journal
    ensures IsBack(s, i, y.Now(i)) && forall k :: k != i ==> y.At(k) == x.At(k)
  {
    y := x;
    if !IsBack(s, i, x.Now(i)) {
      y := Withdraw(s, d, x, i);
      if i in s.orig {
        assert Companion(i) ==> y.At(Db) == x.At(Db);
        y := Return(s, d, y, i);
      }
    }
  }

  lemma PutAllBack(s: Setup, d: Disk, x: Disk) returns (y: Disk)
    requires Leads(s, d, x) && Inv(s, x) && StateIs(x, Activating)
    ensures Leads(s, d, y) && Inv(s, y) && y.journal == x.journal && WholeOriginal(s, y)
  {
    var x1 := PutBack(s, d, x, Db);
    assert !LiveIs(x1, Db, Restored);
    var x2 := PutBack(s, d, x1, Wal);
    assert x2.At(Db) == x1.At(Db);
    var x3 := PutBack(s, d, x2, Shm);
    y := PutBack(s, d, x3, Blobs);
    assert y.At(Db) == x1.At(Db) && y.At(Wal) == x2.At(Wal) && y.At(Shm) == x3.At(Shm);
    forall i ensures IsBack(s, i, y.Now(i)) {
      assert i == Db || i == Wal || i == Shm || i == Blobs;
    }
  }

  lemma SyncAll(s: Setup, d: Disk, x: Disk) returns (y: Disk)
    requires Leads(s, d, x) && Inv(s, x)
    ensures Leads(s, d, y) && Inv(s, y) && y.journal == x.journal.Flush()
    ensures forall i :: y.At(i) == x.At(i).Flush()
  {
    var z := RollOn(s, d, x, SyncMain);
    y := RollOn(s, d, z, SyncBlobs);
    assert z.blobs.Now() == x.blobs.Now();
  }

  lemma SyncedIsBack(s: Setup, x: Disk)
    requires WholeOriginal(s, x) && forall i :: x.At(i).log == []
    ensures AllBack(s, x)
  {
    forall i, f | f in x.Outcomes(i) ensures IsBack(s, i, f) {
      assert x.At(i).log == [] && f == x.Now(i);
    }
  }

  /** From any state with an "activating" journal a rollback that is not
      disturbed gets to the end: the original instance, and no journal. */
  lemma RollsBack(s: Setup, d: Disk, x: Disk) returns (y: Disk)
    requires Leads(s, d, x) && Inv(s, x) && StateIs(x, Activating)
    ensures Leads(s, d, y) && y.journal.Now().None? && WholeOriginal(s, y)
  {
    var x1 := PutAllBack(s, d, x);
    var x2 := SyncAll(s, d, x1);
    forall i ensures IsBack(s, i, x2.Now(i)) && x2.At(i).log == [] {
      assert x2.At(i) == x1.At(i).Flush();
    }
    SyncedIsBack(s, x2);
    y := RollOn(s, d, x2, RemoveJournal);
    forall i ensures IsBack(s, i, y.Now(i)) {
      assert y.At(i) == x2.At(i);
    }
  }

  /** Every interrupted restore can be settled: after any run that leaves an
      "activating" journal, there is a way to the original instance. */
  lemma RecoveryCanFinish(s: Setup, d: Disk, es: seq<Event>) returns (y: Disk)
    requires Initial(s, d) && LegalRun(s, d, es) && StateIs(Exec(s, d, es), Activating)
    ensures Leads(s, Exec(s, d, es), y) && y.journal.Now().None? && WholeOriginal(s, y)
  {
    RunKeeps(s, d, es);
    LeadsNowhere(s, Exec(s, d, es));
    y := RollsBack(s, Exec(s, d, es), Exec(s, d, es));
  }

  // When an outcome is final

  /** Only one outcome is left for every settlement that can still come. */
  ghost predicate Decided(s: Setup, d: Disk, restored: bool) {
    && Inv(s, d) && !MayBe(s, d, if restored then Activating else Activated)
    && (None in d.journal.Outcomes() ==> if restored then AllSwapped(s, d) else AllBack(s, d))
  }

  /** Fewer outcomes leave less to come. */
  lemma DecidedSubset(s: Setup, d: Disk, d': Disk, restored: bool)
    requires Decided(s, d, restored) && Inv(s, d')
    requires (forall i :: d'.Outcomes(i) <= d.Outcomes(i)) && d'.journal.Outcomes() <= d.journal.Outcomes()
    ensures Decided(s, d', restored)
  {
    if AllSwapped(s, d) {
      forall i, f | f in d'.Outcomes(i) ensures IsSwapped(s, i, f) {
        assert f in d.Outcomes(i);
      }
    }
    if AllBack(s, d) {
      forall i, f | f in d'.Outcomes(i) ensures IsBack(s, i, f) {
        assert f in d.Outcomes(i);
      }
    }
  }

  /** A file operation: while the journal says "activating" nothing is settled
      but the original side, which the invariant keeps. */
  lemma DecidedDo(s: Setup, d: Disk, i: Item, op: Op, restored: bool)
    requires Decided(s, d, restored) && Allowed(s, d, Action.Do(i, op)) && Inv(s, Effect(s, d, Action.Do(i, op)))
    ensures Decided(s, Effect(s, d, Action.Do(i, op)), restored)
  {
    NowIsOutcome(d);
    OtherSlots(s, d, i, op);
    if d.journal.Now().None? {
      DoSides(s, d, i, op);
    }
  }

  lemma DecidedRemove(s: Setup, d: Disk, restored: bool)
    requires Decided(s, d, restored) && Allowed(s, d, RemoveJournal) && Inv(s, Effect(s, d, RemoveJournal))
    ensures Decided(s, Effect(s, d, RemoveJournal), restored)
  {
    var d' := Effect(s, d, RemoveJournal);
    NowIsOutcome(d);
    assert d'.journal.Outcomes() == d.journal.Outcomes() + {None};
    assert forall i :: d'.At(i) == d.At(i);
    assert AllBack(s, d') == AllBack(s, d) && AllSwapped(s, d') == AllSwapped(s, d);
  }

  lemma DecidedStep(s: Setup, d: Disk, e: Event, restored: bool)
    requires Decided(s, d, restored) && Legal(s, d, e) && (e.Act? ==> !e.a.WriteJournal?)
    ensures Decided(s, After(s, d, e), restored)
  {
    StepKeeps(s, d, e);
    var d' := After(s, d, e);
    if e.Act? && e.a.Do? {
      DecidedDo(s, d, e.a.i, e.a.op, restored);
    } else if e.Act? && e.a.RemoveJournal? {
      DecidedRemove(s, d, restored);
    } else {
      NowIsOutcome(d);
      forall i ensures d'.Outcomes(i) <= d.Outcomes(i) {
        if e.PowerLoss? {
          assert e.left.At(i).log == [];
        } else {
          FlushOutcomes(d.At(i));
        }
      }
      DecidedSubset(s, d, d', restored);
    }
  }

  lemma {:induction false} DecidedRun(s: Setup, d: Disk, es: seq<Event>, restored: bool)
    requires Decided(s, d, restored) && LegalRun(s, d, es) && NoWrites(es)
    ensures Decided(s, Exec(s, d, es), restored)
  {
    if es != [] {
      DecidedRun(s, d, es[..|es| - 1], restored);
      DecidedStep(s, Exec(s, d, es[..|es| - 1]), es[|es| - 1], restored);
    }
  }

  /** A later settlement, with no new restore, leaves the other instance. */
  ghost predicate Flips(s: Setup, x: Disk) {
    exists y :: Leads(s, x, y) && y.journal.Now().None? && (WholeRestored(s, x) <==> WholeOriginal(s, y))
  }

  lemma SidesNow(s: Setup, d: Disk)
    requires Inv(s, d) && d.journal.Now().None?
    ensures WholeRestored(s, d) <==> AllSwapped(s, d)
    ensures WholeOriginal(s, d) <==> AllBack(s, d)
    ensures WholeRestored(s, d) != WholeOriginal(s, d)
  {
    NowIsOutcome(d);
    assert !IsBack(s, Db, d.Now(Db)) || !IsSwapped(s, Db, d.Now(Db));
  }

  /** Once the journal is gone, which instance is live can still change without
      a new restore exactly when the restored one is live and the journal's last
      synced version, or one written since, said "activating". */
  lemma FlipsExactly(s: Setup, d: Disk, es: seq<Event>)
    requires Initial(s, d) && LegalRun(s, d, es) && Exec(s, d, es).journal.Now().None?
    ensures var x := Exec(s, d, es);
            Flips(s, x) <==> WholeRestored(s, x) && Some(JournalFor(s, Activating)) in x.journal.Outcomes()
  {
    var x := Exec(s, d, es);
    RunKeeps(s, d, es);
    SidesNow(s, x);
    NowIsOutcome(x);
    if WholeRestored(s, x) && MayBe(s, x, Activating) {
      ComesBack(s, x);
    } else if Flips(s, x) {
      var y :| Leads(s, x, y) && y.journal.Now().None? && (WholeRestored(s, x) <==> WholeOriginal(s, y));
      var more :| LegalRun(s, x, more) && NoWrites(more) && Exec(s, x, more) == y;
      DecidedRun(s, x, more, WholeRestored(s, x));
      NowIsOutcome(y);
      SidesNow(s, y);
    }
  }

  /** The journal comes back, and its recovery undoes the restore. */
  lemma ComesBack(s: Setup, x: Disk)
    requires Inv(s, x) && WholeRestored(s, x) && MayBe(s, x, Activating)
    ensures Flips(s, x)
  {
    var left := Disk(x.db.Flush(), x.wal.Flush(), x.shm.Flush(), x.blobs.Flush(),
                     JournalSlot(Some(JournalFor(s, Activating)), []));
    NowIsOutcome(x);
    forall i ensures left.At(i).log == [] && left.At(i).base in x.Outcomes(i) {
      assert x.Now(i) in x.Outcomes(i);
    }
    LeadsNowhere(s, x);
    LeadsOn(s, x, x, PowerLoss(left));
    StepKeeps(s, x, PowerLoss(left));
    var y := RollsBack(s, x, left);
  }

  // A kept restore undone, step by step

  /** The restore of an instance with a -wal, killed after it renamed its
      "activated" journal into place, and kept by a recovery killed before its
      last sync: no journal, the restored instance live. */
  const kept := swapped.(journal := JournalSlot(activating.base, [Some(JournalFor(withWal, Activated)), None]))

  lemma SwappedForGood()
    ensures AllSwapped(withWal, swapped) && WholeRestored(withWal, swapped)
  {
    forall i ensures swapped.Outcomes(i) == {swapped.At(i).base} && IsSwapped(withWal, i, swapped.At(i).base) {
      assert swapped.At(i).log == [];
    }
    NowIsOutcome(swapped);
  }

  lemma ReachKept()
    ensures Reached(kept) && kept.journal.Now().None? && WholeRestored(withWal, kept)
  {
    ReachSwapped();
    SwappedForGood();
    Then(swapped, Act(WriteJournal(Activated)));
    var said := swapped.(journal := JournalSlot(activating.base, [Some(JournalFor(withWal, Activated))]));
    assert said == After(withWal, swapped, Act(WriteJournal(Activated)));
    Then(said, Act(RemoveJournal));
    assert kept == After(withWal, said, Act(RemoveJournal));
    forall i ensures IsSwapped(withWal, i, kept.Now(i)) {
      assert kept.At(i) == swapped.At(i) && kept.Now(i) == swapped.Now(i);
    }
  }

  lemma KeptLosesPower()
    ensures Survives(kept, swapped)
  {
    forall i ensures swapped.At(i).log == [] && swapped.At(i).base in kept.Outcomes(i) {
      assert kept.At(i) == swapped.At(i);
    }
    assert kept.journal.Outcomes() == {activating.base, Some(JournalFor(withWal, Activated)), None};
  }

  lemma ReachedRuns(x: Disk) returns (es: seq<Event>)
    requires Reached(x)
    ensures LegalRun(withWal, untouched, es) && Exec(withWal, untouched, es) == x
  {
    es :| LegalRun(withWal, untouched, es) && Exec(withWal, untouched, es) == x;
  }

  /** Power is lost there: the journal of before is back, and the recovery that
      follows puts the original instance back. */
  lemma UndoneAfterPowerLoss() returns (undone: Disk)
    ensures Reached(kept) && kept.journal.Now().None? && WholeRestored(withWal, kept)
    ensures Survives(kept, swapped) && Reached(swapped) && StateIs(swapped, Activating)
    ensures Leads(withWal, swapped, undone) && undone.journal.Now().None? && WholeOriginal(withWal, undone)
  {
    ReachKept();
    KeptLosesPower();
    ReachSwapped();
    var es := ReachedRuns(swapped);
    assert Initial(withWal, untouched) && StateIs(swapped, Activating);
    undone := RecoveryCanFinish(withWal, untouched, es);
  }
}
