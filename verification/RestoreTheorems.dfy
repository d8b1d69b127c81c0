/**
 What the restore protocol promises beyond all-or-nothing: which instance a
 settlement leaves, when that is final, and which files never meet.
 */
module RestoreTheorems {
  import opened RestoreDisk
  import opened RestoreSafety

  lemma Extend(s: Setup, d: Disk, es: seq<Event>, e: Event)
    requires LegalRun(s, d, es) && Legal(s, Exec(s, d, es), e)
    ensures LegalRun(s, d, es + [e]) && Exec(s, d, es + [e]) == After(s, Exec(s, d, es), e)
  {
    assert (es + [e])[..|es|] == es;
  }

  /** Removing the journal leaves the restored instance exactly when it said
      "activated", and the original one exactly when it said "activating". */
  lemma SettledAsTheJournalSaid(s: Setup, d: Disk, es: seq<Event>)
    requires Initial(s, d) && LegalRun(s, d, es) && Allowed(s, Exec(s, d, es), RemoveJournal)
    ensures var before := Exec(s, d, es);
            var settled := Exec(s, d, es + [Act(RemoveJournal)]);
            && settled.journal.Now().None?
            && (StateIs(before, Activated) <==> WholeRestored(s, settled))
            && (StateIs(before, Activating) <==> WholeOriginal(s, settled))
  {
    var before := Exec(s, d, es);
    Extend(s, d, es, Act(RemoveJournal));
    RunKeeps(s, d, es);
    NowIsOutcome(before);
    var settled := Exec(s, d, es + [Act(RemoveJournal)]);
    assert forall i :: settled.Now(i) == before.Now(i);
    assert IsBack(s, Db, settled.Now(Db)) ==> !IsSwapped(s, Db, settled.Now(Db));
  }

  // When an outcome is final

  ghost predicate Settled(s: Setup, d: Disk, restored: bool) {
    d.journal.Outcomes() == {None} && if restored then AllSwapped(s, d) else AllBack(s, d)
  }

  lemma SubsetSettled(s: Setup, d: Disk, d': Disk, restored: bool)
    requires Settled(s, d, restored)
    requires forall i :: d'.Outcomes(i) <= d.Outcomes(i)
    requires d'.journal.Outcomes() <= d.journal.Outcomes()
    ensures Settled(s, d', restored)
  {
    NowIsOutcome(d');
  }

  lemma SettledStep(s: Setup, d: Disk, e: Event, restored: bool)
    requires Settled(s, d, restored) && Legal(s, d, e)
    requires e.Act? ==> !e.a.WriteJournal?
    ensures Settled(s, After(s, d, e), restored)
  {
    NowIsOutcome(d);
    var d' := After(s, d, e);
    match e
    case PowerLoss(left) =>
      forall i ensures left.Outcomes(i) <= d.Outcomes(i) {
        assert left.At(i).log == [];
      }
      SubsetSettled(s, d, d', restored);
    case Act(a) =>
      if a.Do? {
        DoSides(s, d, a.i, a.op);
        OtherSlots(s, d, a.i, a.op);
      } else if a.SyncMain? || a.SyncBlobs? {
        forall i ensures d'.Outcomes(i) <= d.Outcomes(i) {
          FlushOutcomes(d.At(i));
        }
        SubsetSettled(s, d, d', restored);
      }
  }

  /** Once the journal's removal is synced, nothing but a new restore changes
      which instance is live: not a kill, not a power loss, not a recovery. */
  lemma {:induction false} OutcomeIsFinal(s: Setup, d: Disk, es: seq<Event>, more: seq<Event>)
    requires Initial(s, d) && LegalRun(s, d, es + more)
    requires LegalRun(s, d, es) && Exec(s, d, es).journal == JournalSlot(None, [])
    requires forall k :: 0 <= k < |more| ==> more[k].Act? ==> !more[k].a.WriteJournal?
    ensures Exec(s, d, es + more).journal.Now().None?
    ensures WholeOriginal(s, Exec(s, d, es)) <==> WholeOriginal(s, Exec(s, d, es + more))
    ensures WholeRestored(s, Exec(s, d, es)) <==> WholeRestored(s, Exec(s, d, es + more))
  {
    var d1 := Exec(s, d, es);
    RunKeeps(s, d, es);
    assert None in d1.journal.Outcomes();
    var restored := AllSwapped(s, d1);
    StaysSettled(s, d, es, more, restored);
    SettledSide(s, d1, restored);
    SettledSide(s, Exec(s, d, es + more), restored);
  }

  lemma SettledSide(s: Setup, d: Disk, restored: bool)
    requires Settled(s, d, restored)
    ensures d.journal.Now().None?
    ensures WholeRestored(s, d) <==> restored
    ensures WholeOriginal(s, d) <==> !restored
  {
    NowIsOutcome(d);
    assert !IsBack(s, Db, d.Now(Db)) || !IsSwapped(s, Db, d.Now(Db));
  }

  lemma LastStep(s: Setup, d: Disk, es: seq<Event>, e: Event) returns (before: Disk)
    requires LegalRun(s, d, es + [e])
    ensures LegalRun(s, d, es) && before == Exec(s, d, es) && Legal(s, before, e)
    ensures Exec(s, d, es + [e]) == After(s, before, e)
  {
    assert (es + [e])[..|es|] == es;
    before := Exec(s, d, es);
  }

  lemma {:induction false} StaysSettled(s: Setup, d: Disk, es: seq<Event>, more: seq<Event>, restored: bool)
    requires LegalRun(s, d, es + more) && Settled(s, Exec(s, d, es), restored)
    requires forall k :: 0 <= k < |more| ==> more[k].Act? ==> !more[k].a.WriteJournal?
    ensures Settled(s, Exec(s, d, es + more), restored)
  {
    if more == [] {
      assert es + more == es;
    } else {
      var n := |more| - 1;
      var front := es + more[..n];
      assert es + more == front + [more[n]];
      var before := LastStep(s, d, front, more[n]);
      StaysSettled(s, d, es, more[..n], restored);
      SettledStep(s, before, more[n], restored);
    }
  }

  /** The files as they are now, with the journal as it was in d. */
  function Stopped(d: Disk): Disk {
    Disk(d.db.Flush(), d.wal.Flush(), d.shm.Flush(), d.blobs.Flush(), d.journal)
  }

  lemma StoppedSurvives(d: Disk, later: Disk)
    requires d.journal.log == [] && later.journal.base == d.journal.base && forall i :: later.At(i) == d.At(i)
    ensures Survives(later, Stopped(d))
  {
    NowIsOutcome(d);
    forall i ensures Stopped(d).At(i).log == [] && Stopped(d).At(i).base in later.Outcomes(i) {
      assert later.At(i) == d.At(i) && d.Now(i) in d.Outcomes(i);
      assert Stopped(d).At(i) == Slot(d.Now(i), []);
    }
  }

  /** Before that sync it is not final. A restore killed between renaming the
      "activated" journal into place and syncing it, settled by a recovery that
      is itself killed before its sync, is undone by a power loss: the journal
      comes back saying "activating". */
  lemma KeptRestoreCanBeUndone(s: Setup, d: Disk, es: seq<Event>)
    requires Initial(s, d) && LegalRun(s, d, es)
    requires DurablyActivating(Exec(s, d, es)) && AllSwapped(s, Exec(s, d, es))
    ensures var kept := es + [Act(WriteJournal(Activated))] + [Act(RemoveJournal)];
            && LegalRun(s, d, kept) && Exec(s, d, kept).journal.Now().None? && WholeRestored(s, Exec(s, d, kept))
            && Survives(Exec(s, d, kept), Stopped(Exec(s, d, es))) && StateIs(Stopped(Exec(s, d, es)), Activating)
  {
    var d0 := Exec(s, d, es);
    var e1 := es + [Act(WriteJournal(Activated))];
    Extend(s, d, es, Act(WriteJournal(Activated)));
    var d1 := Exec(s, d, e1);
    assert d1 == d0.(journal := d0.journal.Put(Some(JournalFor(s, Activated))));
    Extend(s, d, e1, Act(RemoveJournal));
    var d2 := d1.(journal := d1.journal.Put(None));
    forall i ensures d2.At(i) == d0.At(i) && IsSwapped(s, i, d2.Now(i)) {
      NowIsOutcome(d0);
    }
    StoppedSurvives(d0, d2);
  }

  // Which files never meet

  predicate Beside(d: Disk, i: Item) { LiveIs(d, Db, Restored) && LiveIs(d, i, Original) }

  lemma NowAfter(s: Setup, d: Disk, a: Action, i: Item)
    ensures Effect(s, d, a).Now(i) == if a.Do? && a.i == i then Apply(a.op, d.Now(i)) else d.Now(i)
  {
    if a.Do? {
      assert (d.At(a.i).log + [a.op])[..|d.At(a.i).log|] == d.At(a.i).log;
    }
  }

  lemma BesideDatabase(s: Setup, d: Disk, op: Op, i: Item)
    requires Kept(s, Db, d.Now(Db)) && Companion(i) && !Beside(d, i)
    requires Allowed(s, d, Action.Do(Db, op))
    ensures !Beside(Effect(s, d, Action.Do(Db, op)), i)
  {
    NowAfter(s, d, Action.Do(Db, op), i);
    NowAfter(s, d, Action.Do(Db, op), Db);
    assert op.Move? ==> (op.to == Live ==> op.from == Staged || op.from == Aside);
  }

  lemma BesideCompanion(s: Setup, d: Disk, op: Op, i: Item)
    requires Kept(s, i, d.Now(i)) && Companion(i) && !Beside(d, i)
    requires Allowed(s, d, Action.Do(i, op))
    ensures !Beside(Effect(s, d, Action.Do(i, op)), i)
  {
    NowAfter(s, d, Action.Do(i, op), i);
    NowAfter(s, d, Action.Do(i, op), Db);
    assert op.Move? ==> op.to != Live || op.from == Aside;
  }

  lemma BesideStep(s: Setup, d: Disk, a: Action, i: Item)
    requires Kept(s, i, d.Now(i)) && Kept(s, Db, d.Now(Db))
    requires Allowed(s, d, a) && Companion(i) && !Beside(d, i)
    ensures !Beside(Effect(s, d, a), i)
  {
    if a.Do? && a.i == Db {
      BesideDatabase(s, d, a.op, i);
    } else if a.Do? && a.i == i {
      BesideCompanion(s, d, a.op, i);
    } else {
      NowAfter(s, d, a, i);
      NowAfter(s, d, a, Db);
    }
  }

  lemma {:induction false} BaseSurvives(base: Files, log: seq<Op>)
    ensures base in Survivors(base, log)
  {
    if log != [] {
      BaseSurvives(base, log[..|log| - 1]);
    }
  }

  // A run of an instance with a -wal, step by step

  const withWal := Setup({Db, Wal}, false, true)
  const empty := Slot(map[], [])
  const original := Slot(map[Live := Original], [])
  const untouched := Disk(original, original, empty, empty, JournalSlot(None, []))
  const activating := JournalSlot(Some(JournalFor(withWal, Activating)), [])

  ghost predicate Reached(x: Disk) {
    exists es :: LegalRun(withWal, untouched, es) && Exec(withWal, untouched, es) == x
  }

  lemma Then(x: Disk, e: Event)
    requires Reached(x) && Legal(withWal, x, e)
    ensures Reached(After(withWal, x, e))
  {
    var es :| LegalRun(withWal, untouched, es) && Exec(withWal, untouched, es) == x;
    Extend(withWal, untouched, es, e);
  }

  lemma ThenSync(x: Disk)
    requires Reached(x) && x.shm == x.blobs == empty
    ensures Reached(Disk(Slot(x.db.Now(), []), Slot(x.wal.Now(), []), empty, empty, JournalSlot(x.journal.Now(), [])))
  {
    assert Allowed(withWal, x, SyncMain);
    Then(x, Act(SyncMain));
  }

  lemma ReachStaged()
    ensures Reached(untouched.(db := original.Do(Create(Staged)))) && AllBack(withWal, untouched.(db := original.Do(Create(Staged))))
  {
    assert LegalRun(withWal, untouched, []) && Exec(withWal, untouched, []) == untouched;
    InitialHolds(withWal, untouched);
    Then(untouched, Act(Action.Do(Db, Create(Staged))));
    DoSides(withWal, untouched, Db, Create(Staged));
  }

  lemma ReachJournalled()
    ensures Reached(Disk(Slot(map[Live := Original, Staged := Restored], []), original, empty, empty, activating))
  {
    ReachStaged();
    var d1 := untouched.(db := original.Do(Create(Staged)));
    Then(d1, Act(WriteJournal(Activating)));
    var d2 := d1.(journal := JournalSlot(None, [Some(JournalFor(withWal, Activating))]));
    ThenSync(d2);
    assert d2.db.Now() == map[Live := Original, Staged := Restored] by { NowAfter(withWal, untouched, Action.Do(Db, Create(Staged)), Db); }
  }

  const bothAside := Disk(Slot(map[Live := Original, Staged := Restored], [Move(Live, Aside)]),
                          original.Do(Move(Live, Aside)), empty, empty, activating)

  lemma ReachAside()
    ensures Reached(bothAside)
  {
    ReachJournalled();
    var d3 := Disk(Slot(map[Live := Original, Staged := Restored], []), original, empty, empty, activating);
    Then(d3, Act(Action.Do(Db, Move(Live, Aside))));
    var d4 := d3.(db := d3.db.Do(Move(Live, Aside)));
    Then(d4, Act(Action.Do(Wal, Move(Live, Aside))));
  }

  const preserved := Disk(Slot(map[Aside := Original, Staged := Restored], []), Slot(map[Aside := Original], []), empty, empty, activating)

  lemma ReachPreserved()
    ensures Reached(preserved)
  {
    ReachAside();
    ThenSync(bothAside);
    var d3 := Disk(Slot(map[Live := Original, Staged := Restored], []), original, empty, empty, activating);
    NowAfter(withWal, d3, Action.Do(Db, Move(Live, Aside)), Db);
    NowAfter(withWal, d3, Action.Do(Wal, Move(Live, Aside)), Wal);
    assert bothAside.db.Now() == map[Aside := Original, Staged := Restored];
    assert bothAside.wal.Now() == map[Aside := Original];
  }

  lemma ReachActivated()
    ensures Reached(preserved.(db := preserved.db.Do(Move(Staged, Live))))
  {
    ReachPreserved();
    assert preserved.Outcomes(Db) == {map[Aside := Original, Staged := Restored]};
    Then(preserved, Act(Action.Do(Db, Move(Staged, Live))));
  }

  const swapped := Disk(Slot(map[Live := Restored, Aside := Original], []), Slot(map[Aside := Original], []), empty, empty, activating)

  lemma ReachSwapped()
    ensures Reached(swapped)
  {
    ReachActivated();
    var d7 := preserved.(db := preserved.db.Do(Move(Staged, Live)));
    ThenSync(d7);
    assert d7.db.Now() == map[Live := Restored, Aside := Original] by {
      NowAfter(withWal, preserved, Action.Do(Db, Move(Staged, Live)), Db);
    }
  }

  /** The rollback has put the database and then the -wal back, unsynced. */
  lemma ReachUnsynced() returns (x: Disk)
    ensures Reached(x) && x == swapped.(db := x.db, wal := swapped.wal.Do(Move(Aside, Live)))
    ensures x.db.base == swapped.db.base && LiveIs(x, Wal, Original)
  {
    ReachSwapped();
    var a, b := Action.Do(Db, Move(Live, Withdrawn(0))), Action.Do(Db, Move(Aside, Live));
    Then(swapped, Act(a));
    NowAfter(withWal, swapped, a, Db);
    var d1 := swapped.(db := swapped.db.Do(a.op));
    Then(d1, Act(b));
    NowAfter(withWal, d1, b, Db);
    var d2 := d1.(db := d1.db.Do(b.op));
    Then(d2, Act(Action.Do(Wal, Move(Aside, Live))));
    NowAfter(withWal, d2, Action.Do(Wal, Move(Aside, Live)), Wal);
    x := d2.(wal := swapped.wal.Do(Move(Aside, Live)));
  }

  /** A rollback's renames are not synced between items, so a power loss can keep
      the -wal's return and lose the database's: the restored database is then
      live beside the original -wal. Only the journal, which stays, keeps it
      from being opened. */
  lemma BesideAfterPowerLoss() returns (left: Disk)
    ensures Initial(withWal, untouched) && Reached(left)
    ensures Beside(left, Wal) && StateIs(left, Activating)
  {
    var x := ReachUnsynced();
    left := swapped.(wal := Slot(x.Now(Wal), []));
    BaseSurvives(x.db.base, x.db.log);
    NowIsOutcome(x);
    Then(x, PowerLoss(left));
  }
}
