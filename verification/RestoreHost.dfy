/**
 The restore command and the recovery that settles an interrupted one, acting
 step by step on a disk. Any step can fail, and the process can be killed before
 any step; what happens is read from a script, so a contract that holds for all
 scripts holds for every placement of faults.
 */
module RestoreHost {
  import opened RestoreDisk
  import opened RestoreSafety

  datatype Outcome = Done | Failed | Killed

  /** What the steps still to come meet: no fault, or one failure at most. */
  predicate NoFaults(script: seq<Outcome>) { forall n :: 0 <= n < |script| ==> script[n] == Done }

  predicate OneFault(script: seq<Outcome>) {
    && (forall n :: 0 <= n < |script| ==> script[n] != Killed)
    && (forall m, n :: 0 <= m < n < |script| ==> script[m] == Done || script[n] == Done)
  }

  function Faults(script: seq<Outcome>): nat {
    if script == [] then 0 else Faults(script[1..]) + if script[0] == Done then 0 else 1
  }

  function Kills(script: seq<Outcome>): nat {
    if script == [] then 0 else Kills(script[1..]) + if script[0] == Killed then 1 else 0
  }

  /** A step that ended in o used up the faults between two scripts: it swallowed
      none if it says it is done, and no kill unless it says so. */
  predicate Draws(before: seq<Outcome>, after: seq<Outcome>, o: Outcome) {
    && (o != Killed ==> Kills(after) == Kills(before))
    && (o == Done ==> Faults(after) == Faults(before))
    && (NoFaults(before) ==> o == Done && NoFaults(after))
    && (OneFault(before) ==> o != Killed && OneFault(after) && (o == Failed ==> NoFaults(after)))
  }

  /** How far a restore got: the journal is durably written, the restored
      database has passed validation. */
  datatype Phase = Begun | Journalled | Checked

  /** Nothing is left of staging. */
  predicate CleanItem(d: Disk, i: Item) { forall p :: p in d.Now(i) ==> p.Live? || p.Aside? }

  predicate Clean(d: Disk) { CleanItem(d, Db) && CleanItem(d, Wal) && CleanItem(d, Shm) && CleanItem(d, Blobs) }

  /** How a command ends; a dead one was killed and left the disk as it was. */
  datatype Result = Succeeded | Error | Dead

  /** Originals that are back, with nothing pending, are back for good. */
  lemma BackOnceSynced(s: Setup, d: Disk)
    requires AllKept(s, d)
    requires forall i :: Covered(s, i) ==> d.Outcomes(i) == {d.Now(i)} && IsBack(s, i, d.Now(i))
    ensures AllBack(s, d)
  {
    forall i, f | f in d.Outcomes(i) ensures IsBack(s, i, f) {
      assert Kept(s, i, f);
    }
  }

  /** A restored instance whose renames are synced is restored for good. */
  lemma SwappedOnceSynced(s: Setup, d: Disk)
    requires AllKept(s, d)
    requires LiveAll(d, Db, Restored) && LiveOnly(d, Wal, Restored) && LiveOnly(d, Shm, Restored)
    requires s.withBlobs ==> LiveAll(d, Blobs, Restored)
    ensures AllSwapped(s, d)
  {
    forall i, f | f in d.Outcomes(i) ensures IsSwapped(s, i, f) {
      assert Kept(s, i, f);
    }
  }

  /** The items whose renames a directory sync makes durable. */
  predicate Durable(s: Setup, a: Action, i: Item) { if i == Blobs then a.SyncBlobs? || s.oneParent else a.SyncMain? }

  /** A sync changes nothing that is visible and leaves fewer outcomes. */
  lemma SyncNarrows(s: Setup, d: Disk, a: Action, i: Item)
    requires a.SyncMain? || a.SyncBlobs?
    ensures var d' := Effect(s, d, a);
            && d'.Now(i) == d.Now(i) && d'.Outcomes(i) <= d.Outcomes(i) && d'.Now(i) in d'.Outcomes(i)
            && (Durable(s, a, i) || d.Outcomes(i) == {d.Now(i)} ==> d'.Outcomes(i) == {d'.Now(i)})
  {
    FlushOutcomes(d.At(i));
    NowIsOutcome(d);
  }

  lemma BackFact(s: Setup, d: Disk, i: Item)
    requires AllBack(s, d)
    ensures if i in s.orig then LiveAll(d, i, Original) else LiveNone(d, i) && Live !in d.Now(i)
  {
    NowIsOutcome(d);
  }

  /** A step on staging changes its own item, and no live file of it. */
  lemma StagingLeaves(s: Setup, d: Disk, i: Item, op: Op)
    requires op in {Create(Staged), DropStaging}
    ensures var d' := Effect(s, d, Action.Do(i, op));
      && d'.journal == d.journal && d'.Now(i) == Apply(op, d.Now(i)) && (forall k :: k != i ==> d'.At(k) == d.At(k))
      && (AllBack(s, d) ==> AllBack(s, d')) && (AllSwapped(s, d) ==> AllSwapped(s, d'))
  {
    DoSides(s, d, i, op);
    DoOutcomes(d.At(i), op);
    OtherSlots(s, d, i, op);
  }

  class Host {
    const setup: Setup
    // What a validation leaves at the companions' live paths before it closes,
    // and whether it takes them away again; the suffix a withdrawn file gets
    // when its plain name is taken.
    const residue: set<Item>
    const tidies: bool
    const suffix: nat
    var disk: Disk
    var script: seq<Outcome>
    ghost const start: Disk
    ghost var events: seq<Event>
    ghost var phase: Phase

    /** The disk is what a legal run of the protocol left. */
    ghost predicate Valid()
      reads this
    {
      Initial(setup, start) && LegalRun(setup, start, events) && disk == Exec(setup, start, events)
    }

    constructor (setup: Setup, disk: Disk, script: seq<Outcome>, residue: set<Item>, tidies: bool, suffix: nat)
      requires Initial(setup, disk)
      ensures Valid() && this.setup == setup && this.disk == disk && this.script == script && events == []
    {
      this.setup, this.residue, this.tidies, this.suffix := setup, residue, tidies, suffix;
      this.disk := disk;
      this.script := script;
      this.start := disk;
      this.events, this.phase := [], Begun;
    }

    lemma Safe()
      requires Valid()
      ensures Inv(setup, disk)
      ensures forall i :: disk.Now(i) in disk.Outcomes(i)
      ensures disk.journal.Now() in disk.journal.Outcomes()
    {
      RunKeeps(setup, start, events);
      NowIsOutcome(disk);
    }

    /** The journal on disk is the one this restore wrote. */
    lemma JournalKnown()
      requires Valid() && disk.journal.Now().Some?
      ensures disk.journal.Now().value == JournalFor(setup, disk.journal.Now().value.state)
    {
      Safe();
    }

    /** What the next step meets. */
    method Next() returns (o: Outcome)
      modifies this`script
      ensures Draws(old(script), script, o)
    {
      if script == [] {
        o := Done;
      } else {
        o := script[0];
        script := script[1..];
        assert forall n :: 0 <= n < |script| ==> script[n] == old(script)[n + 1];
      }
    }

    /** One step of the protocol; it happens whole or not at all. */
    method Step(a: Action) returns (o: Outcome)
      requires Valid() && Allowed(setup, disk, a)
      modifies this`disk, this`script, this`events
      ensures Valid() && old(events) <= events
      ensures o == Done ==> disk == Effect(setup, old(disk), a) && events == old(events) + [Act(a)]
      ensures o != Done ==> disk == old(disk) && events == old(events)
      ensures Draws(old(script), script, o)
    {
      o := Next();
      if o == Done {
        disk := Effect(setup, disk, a);
        events := events + [Act(a)];
        assert events[..|events| - 1] == old(events);
      }
    }

    /** The machine loses power: any subset of the unsynced steps survives. */
    method LosePower(left: Disk)
      requires Valid() && Survives(disk, left)
      modifies this`disk, this`events
      ensures Valid() && disk == left && events == old(events) + [PowerLoss(left)]
    {
      disk := left;
      events := events + [PowerLoss(left)];
      assert events[..|events| - 1] == old(events);
    }

    // Withdrawing restored copies and putting originals back

    /** Moves a restored copy out of its live path into staging, if there is one. */
    method Withdraw(i: Item) returns (o: Outcome)
      requires Valid() && StateIs(disk, Activating) && Handles(disk.journal.Now().value, i)
      requires i in Listed(disk.journal.Now().value) ==> Aside in disk.Now(i)
      modifies this`disk, this`script, this`events
      ensures Valid() && disk.journal == old(disk.journal)
      ensures forall k :: k != i ==> disk.At(k) == old(disk.At(k))
      ensures o == Done ==> Live !in disk.Now(i) && (Aside in disk.Now(i) <==> Aside in old(disk.Now(i)))
      ensures Draws(old(script), script, o)
    {
      o := Done;
      if Live in disk.Now(i) {
        var n := if Withdrawn(0) in disk.Now(i) then 1 + suffix else 0;
        OtherSlots(setup, disk, i, Move(Live, Withdrawn(n)));
        o := Step(Action.Do(i, Move(Live, Withdrawn(n))));
      }
    }

    /** Puts an original back unless it is live already. */
    method PutBack(i: Item) returns (o: Outcome)
      requires Valid() && StateIs(disk, Activating) && i in Listed(disk.journal.Now().value)
      requires Companion(i) ==> IsBack(setup, Db, disk.Now(Db))
      modifies this`disk, this`script, this`events
      ensures Valid() && disk.journal == old(disk.journal)
      ensures forall k :: k != i ==> disk.At(k) == old(disk.At(k))
      ensures o == Done ==> IsBack(setup, i, disk.Now(i))
      ensures Draws(old(script), script, o)
    {
      Safe();
      assert Kept(setup, i, disk.Now(i));
      assert disk.journal.Now().value == JournalFor(setup, Activating);
      if Aside !in disk.Now(i) {
        return Done;
      }
      o := Withdraw(i);
      if o == Done {
        o := MoveBack(i);
      }
    }

    method MoveBack(i: Item) returns (o: Outcome)
      requires Valid() && StateIs(disk, Activating) && i in Listed(disk.journal.Now().value)
      requires (Companion(i) ==> IsBack(setup, Db, disk.Now(Db))) && Live !in disk.Now(i) && Aside in disk.Now(i)
      modifies this`disk, this`script, this`events
      ensures Valid() && disk.journal == old(disk.journal)
      ensures forall k :: k != i ==> disk.At(k) == old(disk.At(k))
      ensures o == Done ==> IsBack(setup, i, disk.Now(i))
      ensures Draws(old(script), script, o)
    {
      Safe();
      assert Kept(setup, i, disk.Now(i));
      OtherSlots(setup, disk, i, Move(Aside, Live));
      o := Step(Action.Do(i, Move(Aside, Live)));
    }

    /** Syncs the directories the restore renames in; a rollback tries each of
        them, an activation stops at the first failure. */
    method SyncParents(stop: bool) returns (o: Outcome)
      requires Valid() && disk.journal.Now().Some?
      modifies this`disk, this`script, this`events
      ensures Valid() && disk.journal.Now() == old(disk.journal.Now())
      ensures old(disk.journal.log) == [] ==> disk.journal.log == []
      ensures forall i :: disk.Now(i) == old(disk.Now(i)) && disk.Outcomes(i) <= old(disk.Outcomes(i))
      ensures o == Done ==> disk.journal.log == [] &&
                            forall i :: Covered(setup, i) ==> disk.Outcomes(i) == {disk.Now(i)}
      ensures Draws(old(script), script, o)
    {
      JournalKnown();
      var separate := disk.journal.Now().value.blobs && !setup.oneParent;
      ghost var d0 := disk;
      o := Step(SyncMain);
      forall i ensures disk.Now(i) == d0.Now(i) && disk.Outcomes(i) <= d0.Outcomes(i)
        ensures o == Done && Durable(setup, SyncMain, i) ==> disk.Outcomes(i) == {disk.Now(i)}
      {
        SyncNarrows(setup, d0, SyncMain, i);
      }
      if o != Killed && separate && !(stop && o == Failed) {
        ghost var d1 := disk;
        var p := Step(SyncBlobs);
        forall i ensures disk.Now(i) == d1.Now(i) && disk.Outcomes(i) <= d1.Outcomes(i)
          ensures p == Done && (i == Blobs || d1.Outcomes(i) == {d1.Now(i)}) ==> disk.Outcomes(i) == {disk.Now(i)}
        {
          SyncNarrows(setup, d1, SyncBlobs, i);
        }
        o := if p == Done then o else p;
      }
    }

    /** Puts every preserved original back: unlisted companions go, then the
        database, its listed companions, the blobs. */
    method RollBack() returns (o: Outcome)
      requires Valid() && StateIs(disk, Activating)
      modifies this`disk, this`script, this`events
      ensures Valid() && disk.journal.Now() == old(disk.journal.Now())
      ensures o == Done ==> AllBack(setup, disk)
      ensures Draws(old(script), script, o)
    {
      o := Next();   // the staging directory is there, or is made again
      if o != Done {
        return;
      }
      o := RollBackItems();
      if o == Failed {
        var ignored := SyncParents(false);
        if ignored == Killed {
          o := Killed;
        }
      } else if o == Done {
        o := SyncParents(false);
        if o == Done {
          Safe();
          BackOnceSynced(setup, disk);
        }
      }
    }

    method RollBackItems() returns (o: Outcome)
      requires Valid() && StateIs(disk, Activating)
      modifies this`disk, this`script, this`events
      ensures Valid() && disk.journal == old(disk.journal)
      ensures o == Done ==> forall i :: Covered(setup, i) ==> IsBack(setup, i, disk.Now(i))
      ensures Draws(old(script), script, o)
    {
      o := RollBackDatabase();
      if o == Done {
        o := RollBackCompanions();
      }
      if o == Done {
        o := RollBackBlobs();
      }
      assert o == Done ==> IsBack(setup, Db, disk.Now(Db)) && IsBack(setup, Wal, disk.Now(Wal)) && IsBack(setup, Shm, disk.Now(Shm));
    }

    method RollBackDatabase() returns (o: Outcome)
      requires Valid() && StateIs(disk, Activating)
      modifies this`disk, this`script, this`events
      ensures Valid() && disk.journal == old(disk.journal) && disk.At(Blobs) == old(disk.At(Blobs))
      ensures o == Done ==> IsBack(setup, Db, disk.Now(Db))
      ensures o == Done ==> forall i :: Companion(i) && i !in setup.orig ==> IsBack(setup, i, disk.Now(i))
      ensures Draws(old(script), script, o)
    {
      JournalKnown();
      var j := disk.journal.Now().value;
      o := Done;
      if Wal !in j.companions {
        o := Withdraw(Wal);
      }
      if o == Done && Shm !in j.companions {
        o := Withdraw(Shm);
      }
      if o == Done {
        if j.database {
          o := PutBack(Db);
        } else {
          o := Withdraw(Db);
        }
      }
    }

    method RollBackCompanions() returns (o: Outcome)
      requires Valid() && StateIs(disk, Activating) && IsBack(setup, Db, disk.Now(Db))
      modifies this`disk, this`script, this`events
      ensures Valid() && disk.journal == old(disk.journal) && disk.At(Blobs) == old(disk.At(Blobs)) && disk.At(Db) == old(disk.At(Db))
      ensures forall i :: Companion(i) && i !in setup.orig ==> disk.At(i) == old(disk.At(i))
      ensures o == Done ==> forall i :: i in setup.orig && Companion(i) ==> IsBack(setup, i, disk.Now(i))
      ensures Draws(old(script), script, o)
    {
      JournalKnown();
      var j := disk.journal.Now().value;
      var rest := j.companions;
      o := Done;
      while rest != {} && o == Done
        invariant Valid() && rest <= j.companions
        invariant disk.journal == old(disk.journal) && disk.At(Blobs) == old(disk.At(Blobs)) && disk.At(Db) == old(disk.At(Db))
        invariant forall i :: Companion(i) && i !in setup.orig ==> disk.At(i) == old(disk.At(i))
        invariant o == Done ==> forall k :: k in j.companions && k !in rest ==> IsBack(setup, k, disk.Now(k))
        invariant Draws(old(script), script, o)
        decreases rest
      {
        var i :| i in rest;
        o := PutBack(i);
        rest := rest - {i};
      }
    }

    method RollBackBlobs() returns (o: Outcome)
      requires Valid() && StateIs(disk, Activating)
      modifies this`disk, this`script, this`events
      ensures Valid() && disk.journal == old(disk.journal)
      ensures forall k :: k != Blobs ==> disk.At(k) == old(disk.At(k))
      ensures o == Done && setup.withBlobs ==> IsBack(setup, Blobs, disk.Now(Blobs))
      ensures Draws(old(script), script, o)
    {
      JournalKnown();
      var j := disk.journal.Now().value;
      o := Done;
      if j.blobs {
        if j.blobsRollback {
          o := PutBack(Blobs);
        } else {
          o := Withdraw(Blobs);
        }
      }
    }

    // Activation

    /** Writes the journal and syncs its directory. */
    method WriteJournalSynced(state: State) returns (o: Outcome)
      requires Valid() && Allowed(setup, disk, WriteJournal(state))
      modifies this`disk, this`script, this`events
      ensures Valid()
      ensures forall i :: disk.Now(i) == old(disk.Now(i)) && disk.Outcomes(i) <= old(disk.Outcomes(i))
      ensures o == Done ==> disk.journal == JournalSlot(Some(JournalFor(setup, state)), [])
      ensures disk.journal.Now() in {old(disk.journal.Now()), Some(JournalFor(setup, state))}
      ensures Draws(old(script), script, o)
    {
      forall i ensures disk.At(i).Flush().Now() == disk.Now(i) && disk.At(i).Flush().Outcomes() <= disk.Outcomes(i) {
        FlushOutcomes(disk.At(i));
      }
      o := Step(WriteJournal(state));
      if o == Done {
        o := Step(SyncMain);
      }
    }

    /** Moves one original to its .pre-restore path. */
    method Preserve(i: Item) returns (o: Outcome)
      requires Valid() && DurablyActivating(disk) && i in Listed(disk.journal.Now().value)
      requires LiveAll(disk, i, Original)
      modifies this`disk, this`script, this`events
      ensures Valid() && disk.journal == old(disk.journal)
      ensures forall k :: k != i ==> disk.At(k) == old(disk.At(k))
      ensures o == Done ==> Live !in disk.Now(i) && (Staged in disk.Now(i) <==> Staged in old(disk.Now(i)))
      ensures Draws(old(script), script, o)
    {
      Safe();
      DoOutcomes(disk.At(i), Move(Live, Aside));
      OtherSlots(setup, disk, i, Move(Live, Aside));
      o := Step(Action.Do(i, Move(Live, Aside)));
    }

    method PreserveCompanions() returns (o: Outcome)
      requires Valid() && DurablyActivating(disk)
      requires forall i :: i in disk.journal.Now().value.companions ==> LiveAll(disk, i, Original)
      modifies this`disk, this`script, this`events
      ensures Valid() && disk.journal == old(disk.journal)
      ensures forall i :: i !in disk.journal.Now().value.companions ==> disk.At(i) == old(disk.At(i))
      ensures o == Done ==> forall i :: i in disk.journal.Now().value.companions ==> Live !in disk.Now(i)
      ensures Draws(old(script), script, o)
    {
      var companions := disk.journal.Now().value.companions;
      var rest := companions;
      o := Done;
      while rest != {} && o == Done
        invariant Valid() && disk.journal == old(disk.journal) && rest <= companions
        invariant forall i :: i in rest || i !in companions ==> disk.At(i) == old(disk.At(i))
        invariant o == Done ==> forall i :: i in companions && i !in rest ==> Live !in disk.Now(i)
        invariant Draws(old(script), script, o)
        decreases rest
      {
        var i :| i in rest;
        assert LiveAll(disk, i, Original);
        o := Preserve(i);
        rest := rest - {i};
      }
    }

    /** Moves the listed original database and companions aside. */
    method PreserveFiles() returns (o: Outcome)
      requires Valid() && DurablyActivating(disk) && AllBack(setup, disk)
      modifies this`disk, this`script, this`events
      ensures Valid() && disk.journal == old(disk.journal) && disk.At(Blobs) == old(disk.At(Blobs))
      ensures o == Done ==> Live !in disk.Now(Db) && Live !in disk.Now(Wal) && Live !in disk.Now(Shm)
      ensures o == Done && Staged in old(disk.Now(Db)) ==> Staged in disk.Now(Db)
      ensures Draws(old(script), script, o)
    {
      JournalKnown();
      BackFact(setup, disk, Db);
      BackFact(setup, disk, Wal);
      BackFact(setup, disk, Shm);
      o := Done;
      if disk.journal.Now().value.database {
        o := Preserve(Db);
      }
      if o == Done {
        o := PreserveCompanions();
      }
    }

    /** Moves every listed original aside. */
    method PreserveMoves() returns (o: Outcome)
      requires Valid() && DurablyActivating(disk) && AllBack(setup, disk)
      modifies this`disk, this`script, this`events
      ensures Valid() && disk.journal == old(disk.journal)
      ensures o == Done ==> Live !in disk.Now(Db) && Live !in disk.Now(Wal) && Live !in disk.Now(Shm)
      ensures o == Done && setup.withBlobs ==> Live !in disk.Now(Blobs)
      ensures o == Done && Staged in old(disk.Now(Db)) ==> Staged in disk.Now(Db)
      ensures o == Done && Staged in old(disk.Now(Blobs)) ==> Staged in disk.Now(Blobs)
      ensures Draws(old(script), script, o)
    {
      JournalKnown();
      BackFact(setup, disk, Blobs);
      o := PreserveFiles();
      if o == Done && disk.journal.Now().value.blobsRollback {
        o := Preserve(Blobs);
      }
    }

    /** Moves every listed original aside and makes that durable. */
    method PreserveAll() returns (o: Outcome)
      requires Valid() && DurablyActivating(disk) && AllBack(setup, disk)
      modifies this`disk, this`script, this`events
      ensures Valid() && disk.journal.Now() == old(disk.journal.Now()) && disk.journal.log == []
      ensures o == Done ==> forall i :: Covered(setup, i) ==> LiveNone(disk, i)
      ensures o == Done && Staged in old(disk.Now(Db)) ==> Staged in disk.Now(Db)
      ensures o == Done && Staged in old(disk.Now(Blobs)) ==> Staged in disk.Now(Blobs)
      ensures Draws(old(script), script, o)
    {
      o := PreserveMoves();
      if o == Done {
        o := SyncParents(true);
      }
    }

    /** Renames a staged copy to its live path. */
    method SwapIn(i: Item) returns (o: Outcome)
      requires Valid() && DurablyActivating(disk) && Staged in disk.Now(i)
      requires i == Db || (i == Blobs && setup.withBlobs)
      requires LiveNone(disk, i) && !LiveIs(disk, Wal, Original) && !LiveIs(disk, Shm, Original)
      modifies this`disk, this`script, this`events
      ensures Valid() && disk.journal == old(disk.journal)
      ensures forall k :: k != i ==> disk.At(k) == old(disk.At(k))
      ensures o == Done ==> LiveIs(disk, i, Restored)
      ensures Draws(old(script), script, o)
    {
      Safe();
      assert Kept(setup, i, disk.Now(i));
      DoOutcomes(disk.At(i), Move(Staged, Live));
      OtherSlots(setup, disk, i, Move(Staged, Live));
      o := Step(Action.Do(i, Move(Staged, Live)));
    }

    /** Makes or removes a companion of the restored database. */
    method Touch(i: Item, op: Op) returns (o: Outcome)
      requires Valid() && DurablyActivating(disk) && Companion(i) && op in {Create(Live), Delete(Live)}
      requires LiveIs(disk, Db, Restored) && LiveOnly(disk, i, Restored)
      modifies this`disk, this`script, this`events
      ensures Valid() && disk.journal == old(disk.journal)
      ensures forall k :: k != i ==> disk.At(k) == old(disk.At(k))
      ensures LiveOnly(disk, i, Restored)
      ensures Draws(old(script), script, o)
    {
      DoOutcomes(disk.At(i), op);
      OtherSlots(setup, disk, i, op);
      o := Step(Action.Do(i, op));
    }

    /** Opens the restored database read-only; SQLite may leave companions. */
    method Validate() returns (o: Outcome)
      requires Valid() && DurablyActivating(disk) && LiveIs(disk, Db, Restored) && phase == Journalled
      requires LiveOnly(disk, Wal, Restored) && LiveOnly(disk, Shm, Restored)
      modifies this`disk, this`script, this`events, this`phase
      ensures Valid() && disk.journal == old(disk.journal) && phase == (if o == Done then Checked else Journalled)
      ensures forall k :: !Companion(k) ==> disk.At(k) == old(disk.At(k))
      ensures LiveOnly(disk, Wal, Restored) && LiveOnly(disk, Shm, Restored)
      ensures Draws(old(script), script, o)
    {
      o := TouchResidue(Create(Live));
      if o == Done {
        o := Check();
      }
      if o == Done && tidies {
        o := TouchResidue(Delete(Live));
      }
      phase := if o == Done then phase else Journalled;
    }

    /** What opening or closing the database does to its companions. */
    method TouchResidue(op: Op) returns (o: Outcome)
      requires Valid() && DurablyActivating(disk) && LiveIs(disk, Db, Restored) && op in {Create(Live), Delete(Live)}
      requires LiveOnly(disk, Wal, Restored) && LiveOnly(disk, Shm, Restored)
      modifies this`disk, this`script, this`events
      ensures Valid() && disk.journal == old(disk.journal)
      ensures forall k :: !Companion(k) ==> disk.At(k) == old(disk.At(k))
      ensures LiveOnly(disk, Wal, Restored) && LiveOnly(disk, Shm, Restored)
      ensures Draws(old(script), script, o)
    {
      o := Done;
      if Wal in residue {
        o := Touch(Wal, op);
      }
      if o == Done && Shm in residue {
        o := Touch(Shm, op);
      }
    }

    /** The checks themselves: nothing else makes a restore checked. */
    method Check() returns (o: Outcome)
      modifies this`script, this`phase
      ensures phase == (if o == Done then Checked else old(phase)) && Draws(old(script), script, o)
    {
      o := Next();
      if o == Done {
        phase := Checked;
      }
    }

    /** The renames that put the staged copies live, made durable. */
    method SwapAll() returns (o: Outcome)
      requires Valid() && DurablyActivating(disk)
      requires forall i :: Covered(setup, i) ==> LiveNone(disk, i) && Live !in disk.Now(i)
      requires Staged in disk.Now(Db) && (setup.withBlobs ==> Staged in disk.Now(Blobs))
      modifies this`disk, this`script, this`events
      ensures Valid() && disk.journal.Now() == old(disk.journal.Now()) && disk.journal.log == []
      ensures o == Done ==> LiveAll(disk, Db, Restored) && LiveIs(disk, Db, Restored)
      ensures o == Done ==> LiveOnly(disk, Wal, Restored) && LiveOnly(disk, Shm, Restored)
      ensures o == Done && setup.withBlobs ==> LiveAll(disk, Blobs, Restored)
      ensures Draws(old(script), script, o)
    {
      assert Covered(setup, Wal) && Covered(setup, Shm);
      o := SwapIn(Db);
      if o == Done && setup.withBlobs {
        o := SwapIn(Blobs);
      }
      if o == Done {
        o := SyncParents(true);
      }
    }

    /** Everything between the two journal writes. */
    method Activate() returns (o: Outcome)
      requires Valid() && DurablyActivating(disk) && AllBack(setup, disk)
      requires Staged in disk.Now(Db) && (setup.withBlobs ==> Staged in disk.Now(Blobs)) && phase == Journalled
      modifies this`disk, this`script, this`events, this`phase
      ensures Valid() && disk.journal.Now() == old(disk.journal.Now()) && phase == (if o == Done then Checked else Journalled)
      ensures o == Done ==> AllSwapped(setup, disk)
      ensures Draws(old(script), script, o)
    {
      o := PreserveAll();
      if o == Done {
        NowIsOutcome(disk);
        o := SwapAll();
      }
      if o == Done {
        o := Validate();
      }
      if o == Done {
        Safe();
        SwappedOnceSynced(setup, disk);
      }
    }

    // The commands

    /** One step on staging, which no live file depends on. */
    method StagingStep(i: Item, op: Op) returns (o: Outcome)
      requires Valid() && disk.journal.Now().None? && op in {Create(Staged), DropStaging}
      modifies this`disk, this`script, this`events
      ensures Valid() && disk.journal == old(disk.journal)
      ensures old(AllBack(setup, disk)) ==> AllBack(setup, disk)
      ensures old(AllSwapped(setup, disk)) ==> AllSwapped(setup, disk)
      ensures forall k :: k != i ==> disk.At(k) == old(disk.At(k))
      ensures o == Done ==> disk.Now(i) == Apply(op, old(disk.Now(i)))
      ensures Draws(old(script), script, o)
    {
      StagingLeaves(setup, disk, i, op);
      o := Step(Action.Do(i, op));
    }

    /** Removes the staging directories; what fails to go is left behind. */
    method RemoveStaging() returns (alive: bool)
      requires Valid() && disk.journal.Now().None?
      modifies this`disk, this`script, this`events
      ensures Valid() && disk.journal == old(disk.journal)
      ensures old(AllBack(setup, disk)) ==> AllBack(setup, disk)
      ensures old(AllSwapped(setup, disk)) ==> AllSwapped(setup, disk)
      ensures NoFaults(old(script)) ==> alive && NoFaults(script) && Clean(disk)
      ensures OneFault(old(script)) ==> alive
      ensures alive ==> Kills(script) == Kills(old(script))
    {
      var o := DropItem(Db);
      if o != Killed {
        o := DropItem(Wal);
      }
      if o != Killed {
        o := DropItem(Shm);
      }
      if o != Killed {
        o := DropItem(Blobs);
      }
      alive := o != Killed;
    }

    method DropItem(i: Item) returns (o: Outcome)
      requires Valid() && disk.journal.Now().None?
      modifies this`disk, this`script, this`events
      ensures Valid() && disk.journal == old(disk.journal)
      ensures old(AllBack(setup, disk)) ==> AllBack(setup, disk)
      ensures old(AllSwapped(setup, disk)) ==> AllSwapped(setup, disk)
      ensures o == Done ==> CleanItem(disk, i) && forall k :: k != i && old(CleanItem(disk, k)) ==> CleanItem(disk, k)
      ensures Draws(old(script), script, o)
    {
      ghost var was := disk;
      o := StagingStep(i, DropStaging);
      forall k | k != i ensures disk.Now(k) == was.Now(k) {
        assert disk.At(k) == was.At(k);
      }
    }

    /** Copies and verifies the backup beside the live files. */
    method Stage() returns (o: Outcome)
      requires Valid() && disk.journal.Now().None? && AllBack(setup, disk)
      modifies this`disk, this`script, this`events
      ensures Valid() && disk.journal == old(disk.journal) && AllBack(setup, disk)
      ensures o == Done ==> Staged in disk.Now(Db) && (setup.withBlobs ==> Staged in disk.Now(Blobs))
      ensures Draws(old(script), script, o)
    {
      o := StagingStep(Db, Create(Staged));
      if o == Done && setup.withBlobs {
        o := StagingStep(Blobs, Create(Staged));
      }
    }

    /** Removes the journal; every outcome of the disk keeps its live files. */
    method DropJournal() returns (o: Outcome)
      requires Valid() && Allowed(setup, disk, RemoveJournal)
      modifies this`disk, this`script, this`events
      ensures Valid()
      ensures o == Done ==> disk.journal.Now().None?
      ensures o != Done ==> disk == old(disk)
      ensures old(AllBack(setup, disk)) ==> AllBack(setup, disk)
      ensures old(AllSwapped(setup, disk)) ==> AllSwapped(setup, disk)
      ensures Draws(old(script), script, o)
    {
      o := Step(RemoveJournal);
      assert forall i :: disk.At(i) == old(disk.At(i));
    }

    method SyncMainDir() returns (o: Outcome)
      requires Valid()
      modifies this`disk, this`script, this`events
      ensures Valid() && disk.journal.Now() == old(disk.journal.Now())
      ensures o == Done ==> disk.journal.log == []
      ensures forall i :: disk.Now(i) == old(disk.Now(i))
      ensures old(AllBack(setup, disk)) ==> AllBack(setup, disk)
      ensures old(AllSwapped(setup, disk)) ==> AllSwapped(setup, disk)
      ensures Draws(old(script), script, o)
    {
      forall i ensures disk.At(i).Flush().Outcomes() <= disk.Outcomes(i) && disk.At(i).Flush().Now() == disk.Now(i) {
        FlushOutcomes(disk.At(i));
      }
      o := Step(SyncMain);
      assert forall i :: disk.Outcomes(i) <= old(disk.Outcomes(i));
    }

    /** The restore command, once its locks are held. The setup describes the
        instance it finds. */
    method Restore() returns (r: Result)
      requires Valid() && (disk.journal.Now().None? ==> AllBack(setup, disk))
      modifies this`disk, this`script, this`events, this`phase
      ensures Valid()
      ensures old(disk).journal.Now().Some? ==> r == Error && disk == old(disk)
      ensures r == Succeeded ==> disk.journal.Now().None? && AllSwapped(setup, disk) && phase == Checked
      ensures r == Error && disk.journal.Now().None? ==> AllBack(setup, disk)
      ensures NoFaults(old(script)) && old(disk).journal.Now().None? ==>
        r == Succeeded && Clean(disk) && disk.journal == JournalSlot(None, [])
      ensures r != Dead ==> Kills(script) == Kills(old(script))
      ensures OneFault(old(script)) && old(disk).journal.Now().None? ==> r != Dead && (r == Error ==> FailedWell())
    {
      if disk.journal.Now().Some? {
        return Error;
      }
      phase := Begun;
      var o := Stage();
      if o == Done {
        o := WriteJournalSynced(Activating);
      }
      if o != Done {
        r := GiveUp(o);
        return;
      }
      phase := Journalled;
      o := Activate();
      if o == Killed {
        return Dead;
      }
      if o == Failed {
        r := Undo();
        return;
      }
      r := Finish();
    }

    /** A failed activation: everything is put back, and the journal goes. */
    method Undo() returns (r: Result)
      requires Valid() && StateIs(disk, Activating)
      modifies this`disk, this`script, this`events
      ensures Valid() && r != Succeeded
      ensures r == Error && disk.journal.Now().None? ==> AllBack(setup, disk)
      ensures NoFaults(old(script)) ==>
        r == Error && AllBack(setup, disk) && disk.journal == JournalSlot(None, []) && Clean(disk)
      ensures r != Dead ==> Kills(script) == Kills(old(script))
    {
      var o := RollBack();
      if o == Done {
        o := DropJournal();
      }
      if o == Done {
        o := SyncMainDir();
      }
      r := GiveUp(if o == Killed then Killed else Failed);
    }

    /** A finished activation: recorded, and the journal goes. */
    method Finish() returns (r: Result)
      requires Valid() && StateIs(disk, Activating) && AllSwapped(setup, disk)
      modifies this`disk, this`script, this`events
      ensures Valid() && (r == Succeeded ==> disk.journal.Now().None? && AllSwapped(setup, disk))
      ensures r == Error ==> disk.journal.Now().Some? && AllSwapped(setup, disk)
      ensures NoFaults(old(script)) ==> r == Succeeded && Clean(disk) && disk.journal == JournalSlot(None, [])
      ensures OneFault(old(script)) ==> r != Dead
      ensures r != Dead ==> Kills(script) == Kills(old(script))
    {
      var o := WriteJournalSynced(Activated);
      if o == Done {
        o := DropJournal();
      }
      if o != Done {
        return if o == Killed then Dead else Error;
      }
      o := SyncMainDir();
      if o == Killed {
        return Dead;
      }
      var alive := RemoveStaging();
      r := if alive then Succeeded else Dead;
    }

    /** What one failure leaves: before the journal is durable nothing has moved;
        between the two journal writes everything is put back and no journal or
        staging stays; after validation the restored instance is live, and its
        journal is left to be settled. */
    ghost predicate FailedWell()
      reads this
    {
      match phase
      case Begun => AllBack(setup, disk)
      case Journalled => AllBack(setup, disk) && disk.journal == JournalSlot(None, []) && Clean(disk)
      case Checked => AllSwapped(setup, disk) && disk.journal.Now().Some?
    }

    /** Leaves a failed restore: staging goes only when no journal names it. */
    method GiveUp(o: Outcome) returns (r: Result)
      requires Valid() && o != Done && (disk.journal.Now().None? ==> AllBack(setup, disk))
      modifies this`disk, this`script, this`events
      ensures Valid() && r != Succeeded
      ensures r == Error && disk.journal.Now().None? ==> AllBack(setup, disk)
      ensures disk.journal == old(disk.journal) && (disk.journal.Now().Some? ==> disk == old(disk))
      ensures o == Failed && OneFault(old(script)) ==> r == Error
      ensures o == Failed && NoFaults(old(script)) && disk.journal.Now().None? ==> Clean(disk)
      ensures r != Dead ==> o == Failed && Kills(script) == Kills(old(script))
    {
      if o == Killed {
        return Dead;
      }
      r := Error;
      if disk.journal.Now().None? {
        var alive := RemoveStaging();
        r := if alive then Error else Dead;
      }
    }

    /** Settles the journal an interrupted restore left: an unfinished
        activation is rolled back, a finished one kept. */
    method Recover() returns (r: Result)
      requires Valid()
      modifies this`disk, this`script, this`events
      ensures Valid()
      ensures r == Succeeded ==> disk.journal.Now().None?
      ensures r == Succeeded && old(StateIs(disk, Activated)) ==> AllSwapped(setup, disk) && disk.journal.log == []
      ensures r == Succeeded && old(StateIs(disk, Activating)) ==> AllBack(setup, disk) && disk.journal.log == []
      ensures NoFaults(old(script)) ==> r == Succeeded && (old(disk).journal.Now().Some? ==> Clean(disk))
      ensures old(disk).journal.Now().None? ==> r == Succeeded && disk == old(disk)
      ensures r != Dead ==> Kills(script) == Kills(old(script))
    {
      if disk.journal.Now().None? {
        return Succeeded;
      }
      Safe();
      JournalKnown();
      var o := Done;
      if StateIs(disk, Activating) {
        o := RollBack();
      }
      if o == Done {
        o := DropJournal();
      }
      if o != Done {
        return if o == Killed then Dead else Error;
      }
      var alive := RemoveStaging();
      if !alive {
        return Dead;
      }
      o := SyncMainDir();
      r := if o == Done then Succeeded else if o == Killed then Dead else Error;
    }

    /** The machine loses power and comes back: whatever survived, the recovery at
        the next start settles it as its journal says. */
    method LosePowerAndRecover(left: Disk) returns (r: Result)
      requires Valid() && Survives(disk, left)
      modifies this`disk, this`script, this`events
      ensures Valid() && (NoFaults(old(script)) ==> r == Succeeded)
      ensures r == Succeeded ==> disk.journal.Now().None?
      ensures r == Succeeded ==> WholeOriginal(setup, disk) != WholeRestored(setup, disk)
      ensures r == Succeeded && StateIs(left, Activated) ==> WholeRestored(setup, disk)
      ensures r == Succeeded && StateIs(left, Activating) ==> WholeOriginal(setup, disk)
    {
      LosePower(left);
      r := Recover();
      if r == Succeeded {
        OneWhole();
      }
    }

    /** With the journal gone the live files are exactly one whole instance. */
    lemma OneWhole()
      requires Valid() && disk.journal.Now().None?
      ensures WholeOriginal(setup, disk) != WholeRestored(setup, disk)
      ensures AllBack(setup, disk) ==> WholeOriginal(setup, disk)
      ensures AllSwapped(setup, disk) ==> WholeRestored(setup, disk)
    {
      AllOrNothing(setup, start, events);
      NowIsOutcome(disk);
      assert !IsBack(setup, Db, disk.Now(Db)) || !IsSwapped(setup, Db, disk.Now(Db));
    }
  }
}
