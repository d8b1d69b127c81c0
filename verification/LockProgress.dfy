/**
 The locks do not lock anyone out for good: after any run, once everyone else is
 gone, a command that starts gets through, settling first the journal that a
 killed restore of its database left behind.
 */
module LockProgress {
  import opened RestoreLocks

  /** What is left of a command, for the order in which it goes on. */
  function Rest(pc: Pc): int {
    match pc
    case Look => 20
    case Recovering(n) => 18 - n
    case Settling => 13
    case Locking(n) => 12 - n
    case Check => 5
    case Checked => 4
    case Released => 3
    case Moving => 2
    case Open => 1
  }

  /** Only p is left, and the journal is none or its own, as its place requires. */
  ghost predicate Alone(w: World, p: Pid) { Inv(w) && Apart(w, p) }

  predicate Apart(w: World, p: Pid) {
    && w.procs.Keys == {p}
    && var q := w.procs[p];
    && (q.pc.Look? || q.pc.Recovering? || q.pc.Settling? ==> w.journal.None? || w.journal == Some(q.db))
    && (q.pc.Locking? || q.pc.Check? || q.pc.Open? ==> w.journal.None?)
  }

  /** The next action of a command on its own. */
  function Step(w: World, p: Pid): Action
    requires p in w.procs
  {
    if w.procs[p].pc == Locking(Total(w.procs[p].kind)) then TakeBlob(p) else Advance(p)
  }

  lemma NotHeld(w: World, p: Pid, l: Lock)
    requires LocksOk(w) && w.procs.Keys == {p} && l !in Held(w.procs[p])
    ensures Free(w, l)
  {
  }

  lemma StepIsEnabled(w: World, p: Pid)
    requires Alone(w, p) && !w.procs[p].pc.Open?
    ensures Enabled(w, Step(w, p))
  {
    var q := w.procs[p];
    assert ProcessOk(w, q);
    match q.pc
    case Recovering(n) =>
      if n < 4 {
        NotHeld(w, p, RecoveryLock(q.db, n));
      }
    case Locking(n) =>
      NotHeld(w, p, if n < Total(q.kind) then CommandLock(q.kind, q.db, n) else BlobDir(q.store, w.Generation(q.store)));
    case _ =>
  }

  lemma StepStaysApart(w: World, p: Pid)
    requires Apart(w, p) && ProcessOk(w, w.procs[p]) && Enabled(w, Step(w, p))
    requires !w.procs[p].pc.Open? && !w.procs[p].pc.Moving?
    ensures var v := Next(w, Step(w, p));
      Apart(v, p) && v.procs[p].kind == w.procs[p].kind && Rest(v.procs[p].pc) < Rest(w.procs[p].pc)
      && (v.procs[p].pc.Open? ==> !v.procs[p].kind.Restore?)
  {
  }

  lemma {:induction false} OneBefore(w: World, a: Action, run: seq<Action>)
    requires Enabled(w, a) && LegalRun(Next(w, a), run)
    ensures LegalRun(w, [a] + run) && Exec(w, [a] + run) == Exec(Next(w, a), run)
  {
    var all := [a] + run;
    if run == [] {
      assert all[..0] == [];
    } else {
      OneBefore(w, a, run[..|run| - 1]);
      assert all[..|all| - 1] == [a] + run[..|run| - 1];
    }
  }

  /** A command is through: its database is open or, for a restore, its backup is
      in place and it has ended; no journal is left. */
  predicate Through(w: World, p: Pid, kind: Kind) {
    w.journal.None? && if kind.Restore? then p !in w.procs else p in w.procs && w.procs[p].pc.Open?
  }

  lemma {:induction false} GoesOn(w: World, p: Pid) returns (run: seq<Action>)
    requires Alone(w, p) && (w.procs[p].pc.Open? ==> !w.procs[p].kind.Restore?)
    ensures LegalRun(w, run) && Through(Exec(w, run), p, w.procs[p].kind)
    decreases Rest(w.procs[p].pc)
  {
    run := [];
    if !w.procs[p].pc.Open? {
      assert ProcessOk(w, w.procs[p]);
      StepIsEnabled(w, p);
      var v := Next(w, Step(w, p));
      if !w.procs[p].pc.Moving? {
        StepStaysApart(w, p);
        StepKeeps(w, Step(w, p));
        run := GoesOn(v, p);
      }
      OneBefore(w, Step(w, p), run);
      run := [Step(w, p)] + run;
    }
  }

  /** Whatever has happened and whoever was killed: a command started when no
      other runs, with no journal or one of its own database, gets through. */
  lemma AloneGetsThrough(w: World, before: seq<Action>, p: Pid, kind: Kind, db: Database, store: Store)
    returns (run: seq<Action>)
    requires Initial(w) && LegalRun(w, before) && Exec(w, before).procs == map[]
    requires Exec(w, before).journal.None? || Exec(w, before).journal == Some(db)
    ensures LegalRun(Exec(w, before), run) && Through(Exec(Exec(w, before), run), p, kind)
  {
    RunKeeps(w, before);
    var v := Exec(w, before);
    var start := Spawn(p, kind, db, store);
    StepKeeps(v, start);
    run := GoesOn(Next(v, start), p);
    OneBefore(v, start, run);
    run := [start] + run;
  }
}
