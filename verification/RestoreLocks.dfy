/**
 Who may touch the database and the restore journal. Any number of commands of
 any number of databases in one directory run side by side, each taking its
 locks one at a time without blocking; any of them can be killed at any step,
 which drops its locks and leaves the journal.
 */
module RestoreLocks {

  type Pid = nat
  type Database = nat    // one instance: its data directory and database file
  type Store = nat       // a blob directory, which two instances may share

  datatype Option<+T> = None | Some(value: T)

  /** Writer stands for serve, init and migrate. */
  datatype Kind = Writer | ResetPassword | Restore

  /** The lock files. The blob directory's is inside the directory a restore
      renames, so each generation of the directory has its own. */
  datatype Lock =
    | RestoreOf(db: Database)
    | RestoreDir
    | DataDir(db: Database)
    | DatabaseFile(db: Database)
    | BlobDir(store: Store, generation: nat)

  datatype Pc =
    | Look               // is there a journal to settle first?
    | Recovering(n: nat) // holds the first n recovery locks
    | Settling
    | Locking(n: nat)    // holds the first n locks of the command
    | Check              // all locks held; looks for a journal again
    | Checked            // restore: none found, the backup is staged
    | Released           // restore: the blob lock is let go
    | Moving             // restore: the journal is written
    | Open               // the database is open for writing

  datatype Process = Process(kind: Kind, db: Database, store: Store, pc: Pc, blob: Option<nat>)

  datatype World = World(procs: map<Pid, Process>, holder: map<Lock, Pid>, journal: Option<Database>,
                         generations: map<Store, nat>) {
    function Generation(s: Store): nat { if s in generations then generations[s] else 0 }
  }

  /** The n-th lock recovery and restore take, then the first n of them. */
  function RecoveryLock(db: Database, n: nat): Lock {
    if n == 0 then RestoreOf(db) else if n == 1 then RestoreDir else if n == 2 then DataDir(db) else DatabaseFile(db)
  }

  function RecoveryLocks(db: Database, n: nat): set<Lock> {
    (if n > 0 then {RestoreOf(db)} else {}) + (if n > 1 then {RestoreDir} else {})
    + (if n > 2 then {DataDir(db)} else {}) + (if n > 3 then {DatabaseFile(db)} else {})
  }

  /** The same for a command: a restore takes the recovery locks again, the
      others only the data directory's and the database's. */
  function Total(kind: Kind): nat { if kind.Restore? then 4 else 2 }

  function CommandLock(kind: Kind, db: Database, n: nat): Lock {
    RecoveryLock(db, if kind.Restore? then n else n + 2)
  }

  function CommandLocks(kind: Kind, db: Database, n: nat): set<Lock> {
    if kind.Restore? then RecoveryLocks(db, n)
    else (if n > 0 then {DataDir(db)} else {}) + (if n > 1 then {DatabaseFile(db)} else {})
  }

  /** The locks a process holds, apart from the blob directory's. */
  function OrdinaryLocks(p: Process): set<Lock> {
    match p.pc
    case Look => {}
    case Recovering(n) => RecoveryLocks(p.db, n)
    case Settling => RecoveryLocks(p.db, 4)
    case Locking(n) => CommandLocks(p.kind, p.db, n)
    case Check | Checked | Released | Moving | Open => CommandLocks(p.kind, p.db, Total(p.kind))
  }

  function Held(p: Process): set<Lock> {
    OrdinaryLocks(p) + if p.blob.Some? then {BlobDir(p.store, p.blob.value)} else {}
  }

  datatype Action =
    | Spawn(p: Pid, kind: Kind, db: Database, store: Store)
    | Exit(p: Pid)      // an error, the end of the command, or a kill
    | Advance(p: Pid)
    | TakeBlob(p: Pid)  // the blob directory exists: its lock is taken
    | SkipBlob(p: Pid)  // there is none; only a writer would make it
    | Swap(p: Pid)      // a restore or rollback renames the blob directory

  predicate Free(w: World, l: Lock) { l !in w.holder }

  predicate Enabled(w: World, a: Action) {
    match a
    case Spawn(p, kind, db, store) => p !in w.procs
    case Exit(p) => p in w.procs
    case Advance(p) =>
      && p in w.procs
      && var q := w.procs[p];
      (match q.pc
       case Look => true
       // The blob lock is only probed: taken and given back at once.
       case Recovering(n) => if n < 4 then Free(w, RecoveryLock(q.db, n)) else true
       case Settling => w.journal.None? || w.journal == Some(q.db)
       case Locking(n) => n < Total(q.kind) && Free(w, CommandLock(q.kind, q.db, n))
       case Check => w.journal.None?
       case Checked => q.kind.Restore?
       case Released => q.kind.Restore?
       case Moving => true
       case Open => false)
    case TakeBlob(p) =>
      && p in w.procs && w.procs[p].pc == Locking(Total(w.procs[p].kind))
      && Free(w, BlobDir(w.procs[p].store, w.Generation(w.procs[p].store)))
    case SkipBlob(p) =>
      p in w.procs && !w.procs[p].kind.Writer? && w.procs[p].pc == Locking(Total(w.procs[p].kind))
    case Swap(p) =>
      p in w.procs && (w.procs[p].pc.Moving? || (w.procs[p].pc.Settling? && w.journal == Some(w.procs[p].db)))
  }

  function Drop(w: World, ls: set<Lock>): World { w.(holder := w.holder - ls) }

  function Take(w: World, p: Pid, l: Lock): World { w.(holder := w.holder[l := p]) }

  function Put(w: World, p: Pid, q: Process): World { w.(procs := w.procs[p := q]) }

  function Quit(w: World, p: Pid): World
    requires p in w.procs
  {
    Drop(w.(procs := w.procs - {p}), Held(w.procs[p]))
  }

  function Next(w: World, a: Action): World
    requires Enabled(w, a)
  {
    match a
    case Spawn(p, kind, db, store) => Put(w, p, Process(kind, db, store, Look, None))
    case Exit(p) => Quit(w, p)
    case TakeBlob(p) =>
      var q := w.procs[p];
      var g := w.Generation(q.store);
      Take(Put(w, p, q.(pc := Check, blob := Some(g))), p, BlobDir(q.store, g))
    case SkipBlob(p) => Put(w, p, w.procs[p].(pc := Check))
    case Swap(p) =>
      var s := w.procs[p].store;
      w.(generations := w.generations[s := w.Generation(s) + 1])
    case Advance(p) =>
      var q := w.procs[p];
      match q.pc
      case Look => Put(w, p, q.(pc := if w.journal.None? then Locking(0) else Recovering(0)))
      case Recovering(n) =>
        if n < 4 then Take(Put(w, p, q.(pc := Recovering(n + 1))), p, RecoveryLock(q.db, n))
        else Put(w, p, q.(pc := Settling))
      // The journal is settled and removed; the recovery locks go.
      case Settling => Drop(Put(w, p, q.(pc := Locking(0))), OrdinaryLocks(q)).(journal := None)
      case Locking(n) => Take(Put(w, p, q.(pc := Locking(n + 1))), p, CommandLock(q.kind, q.db, n))
      case Check => Put(w, p, q.(pc := if q.kind.Restore? then Checked else Open))
      // The blob lock is let go before the journal is written.
      case Checked => Drop(Put(w, p, q.(pc := Released, blob := None)), Held(q) - OrdinaryLocks(q))
      case Released => Put(w, p, q.(pc := Moving)).(journal := Some(q.db))
      case Moving => Quit(w, p).(journal := None)
  }

  function Exec(w: World, run: seq<Action>): World {
    if run == [] then w
    else
      var before := Exec(w, run[..|run| - 1]);
      var a := run[|run| - 1];
      if Enabled(before, a) then Next(before, a) else before
  }

  predicate LegalRun(w: World, run: seq<Action>) {
    run == [] || (LegalRun(w, run[..|run| - 1]) && Enabled(Exec(w, run[..|run| - 1]), run[|run| - 1]))
  }

  /** No process yet; a journal may be left from before. */
  predicate Initial(w: World) { w.procs == map[] && w.holder == map[] }

  // Safety

  ghost predicate HoldsAll(w: World, p: Pid, ls: set<Lock>) {
    forall l :: l in ls ==> l in w.holder && w.holder[l] == p
  }

  /** Each lock has one holder, and that process is where the lock is held. */
  ghost predicate LocksOk(w: World) {
    && (forall l :: l in w.holder ==> w.holder[l] in w.procs && l in Held(w.procs[w.holder[l]]))
    && (forall p :: p in w.procs ==> HoldsAll(w, p, Held(w.procs[p])))
  }

  predicate ProcessOk(w: World, q: Process) {
    && (q.pc.Open? ==> w.journal != Some(q.db))
    && (q.pc.Checked? || q.pc.Released? ==> w.journal.None?)
    && (q.pc.Moving? ==> w.journal == Some(q.db))
    && (q.pc.Checked? || q.pc.Released? || q.pc.Moving? ==> q.kind.Restore?)
    && (q.pc.Locking? ==> q.pc.n <= Total(q.kind))
    && (q.pc.Recovering? ==> q.pc.n <= 4)
    && (q.blob.Some? ==> q.pc.Check? || q.pc.Checked? || q.pc.Open?)
    && (q.kind.Writer? && (q.pc.Check? || q.pc.Open?) ==> q.blob.Some?)
  }

  ghost predicate Inv(w: World) {
    LocksOk(w) && forall p :: p in w.procs ==> ProcessOk(w, w.procs[p])
  }

  /** The processes that act on the journal. */
  predicate Owns(q: Process) { q.pc.Settling? || q.pc.Checked? || q.pc.Released? || q.pc.Moving? }

  lemma Exclusive(w: World, p: Pid, q: Pid, l: Lock)
    requires LocksOk(w) && p in w.procs && q in w.procs
    requires l in Held(w.procs[p]) && l in Held(w.procs[q])
    ensures p == q
  {
  }

  lemma TakeKeepsLocks(w: World, p: Pid, q: Process, l: Lock)
    requires LocksOk(w) && p in w.procs && Free(w, l) && Held(q) == Held(w.procs[p]) + {l}
    ensures LocksOk(Take(Put(w, p, q), p, l))
  {
    var w' := Take(Put(w, p, q), p, l);
    forall r | r in w'.procs ensures HoldsAll(w', r, Held(w'.procs[r])) {
      assert HoldsAll(w, r, Held(w.procs[r]));
    }
  }

  lemma DropKeepsLocks(w: World, p: Pid, q: Process, ls: set<Lock>)
    requires LocksOk(w) && p in w.procs && ls <= Held(w.procs[p]) && Held(q) == Held(w.procs[p]) - ls
    ensures LocksOk(Drop(Put(w, p, q), ls))
  {
    var w' := Drop(Put(w, p, q), ls);
    assert HoldsAll(w, p, Held(w.procs[p]));
    forall r | r in w'.procs ensures HoldsAll(w', r, Held(w'.procs[r])) {
      assert HoldsAll(w, r, Held(w.procs[r]));
    }
  }

  lemma PutKeepsLocks(w: World, p: Pid, q: Process)
    requires LocksOk(w) && Held(q) == if p in w.procs then Held(w.procs[p]) else {}
    ensures LocksOk(Put(w, p, q))
  {
    var w' := Put(w, p, q);
    forall r | r in w'.procs ensures HoldsAll(w', r, Held(w'.procs[r])) {
      if r in w.procs {
        assert HoldsAll(w, r, Held(w.procs[r]));
      }
    }
  }

  lemma SameLocks(w: World, w': World)
    requires LocksOk(w) && w'.procs == w.procs && w'.holder == w.holder
    ensures LocksOk(w')
  {
    forall r | r in w'.procs ensures HoldsAll(w', r, Held(w'.procs[r])) {
      assert HoldsAll(w, r, Held(w.procs[r]));
    }
  }

  lemma QuitKeepsLocks(w: World, p: Pid)
    requires LocksOk(w) && p in w.procs
    ensures LocksOk(Quit(w, p))
  {
    var w' := Quit(w, p);
    forall q | q in w'.procs ensures HoldsAll(w', q, Held(w'.procs[q])) {
      assert HoldsAll(w, q, Held(w.procs[q])) && HoldsAll(w, p, Held(w.procs[p]));
    }
  }

  lemma HeldWhileTaking(q: Process, n: nat)
    requires q.blob.None?
    ensures n < 4 ==> Held(q.(pc := Recovering(n + 1))) == Held(q.(pc := Recovering(n))) + {RecoveryLock(q.db, n)}
    ensures Held(q.(pc := Recovering(4))) == Held(q.(pc := Settling))
    ensures n < Total(q.kind) ==>
              Held(q.(pc := Locking(n + 1))) == Held(q.(pc := Locking(n))) + {CommandLock(q.kind, q.db, n)}
  {
  }

  lemma AdvanceTakes(w: World, p: Pid)
    requires LocksOk(w) && Enabled(w, Advance(p)) && ProcessOk(w, w.procs[p]) && (w.procs[p].pc.Recovering? || w.procs[p].pc.Locking?)
    ensures LocksOk(Next(w, Advance(p)))
  {
    var q := w.procs[p];
    var n := q.pc.n;
    HeldWhileTaking(q, n);
    if q.pc.Locking? {
      assert q == q.(pc := Locking(n));
      TakeKeepsLocks(w, p, q.(pc := Locking(n + 1)), CommandLock(q.kind, q.db, n));
    } else if n < 4 {
      assert q == q.(pc := Recovering(n));
      TakeKeepsLocks(w, p, q.(pc := Recovering(n + 1)), RecoveryLock(q.db, n));
    } else {
      assert q == q.(pc := Recovering(4));
      PutKeepsLocks(w, p, q.(pc := Settling));
    }
  }

  lemma AdvanceDrops(w: World, p: Pid)
    requires LocksOk(w) && Enabled(w, Advance(p)) && ProcessOk(w, w.procs[p]) && (w.procs[p].pc.Settling? || w.procs[p].pc.Checked?)
    ensures LocksOk(Next(w, Advance(p)))
  {
    var q := w.procs[p];
    var w' := Next(w, Advance(p));
    var ls := if q.pc.Settling? then OrdinaryLocks(q) else Held(q) - OrdinaryLocks(q);
    DropKeepsLocks(w, p, w'.procs[p], ls);
    SameLocks(Drop(Put(w, p, w'.procs[p]), ls), w');
  }

  /** Places in a command where it holds the same locks. */
  lemma HeldStill(q: Process)
    ensures Held(q.(pc := Look)) == Held(q.(pc := Locking(0))) == Held(q.(pc := Recovering(0)))
    ensures Held(q.(pc := Check)) == Held(q.(pc := Checked)) == Held(q.(pc := Open))
    ensures Held(q.(pc := Released)) == Held(q.(pc := Moving))
  {
  }

  lemma AdvanceKeepsAll(w: World, p: Pid)
    requires LocksOk(w) && Enabled(w, Advance(p)) && (w.procs[p].pc.Look? || w.procs[p].pc.Check?)
    ensures LocksOk(Next(w, Advance(p)))
  {
    var q := w.procs[p];
    var pc := if q.pc.Look? then (if w.journal.None? then Locking(0) else Recovering(0)) else if q.kind.Restore? then Checked else Open;
    HeldStill(q);
    assert q == q.(pc := q.pc) && Held(q.(pc := pc)) == Held(q);
    assert Next(w, Advance(p)) == Put(w, p, q.(pc := pc));
    PutKeepsLocks(w, p, q.(pc := pc));
  }

  lemma AdvanceWrites(w: World, p: Pid)
    requires LocksOk(w) && Enabled(w, Advance(p)) && w.procs[p].pc.Released?
    ensures LocksOk(Next(w, Advance(p)))
  {
    var q := w.procs[p].(pc := Moving);
    PutKeepsLocks(w, p, q);
    SameLocks(Put(w, p, q), Next(w, Advance(p)));
  }

  lemma AdvanceEnds(w: World, p: Pid)
    requires LocksOk(w) && Enabled(w, Advance(p)) && ProcessOk(w, w.procs[p]) && w.procs[p].pc.Moving?
    ensures LocksOk(Next(w, Advance(p)))
  {
    QuitKeepsLocks(w, p);
    SameLocks(Quit(w, p), Next(w, Advance(p)));
  }

  lemma BlobLocks(w: World, a: Action)
    requires LocksOk(w) && Enabled(w, a) && (a.TakeBlob? || a.SkipBlob?) && ProcessOk(w, w.procs[a.p])
    ensures LocksOk(Next(w, a))
  {
    var q, q' := w.procs[a.p], Next(w, a).procs[a.p];
    if a.TakeBlob? {
      TakeKeepsLocks(w, a.p, q', BlobDir(q.store, w.Generation(q.store)));
    } else {
      PutKeepsLocks(w, a.p, q');
    }
  }

  lemma StepLocks(w: World, a: Action)
    requires Inv(w) && Enabled(w, a)
    ensures LocksOk(Next(w, a))
  {
    if !a.Spawn? {
      assert ProcessOk(w, w.procs[a.p]);
    }
    match a {
      case Spawn(p, kind, db, store) => PutKeepsLocks(w, p, Process(kind, db, store, Look, None));
      case Exit(p) => QuitKeepsLocks(w, p);
      case Swap(p) => SameLocks(w, Next(w, a));
      case SkipBlob(p) => BlobLocks(w, a);
      case TakeBlob(p) => BlobLocks(w, a);
      case Advance(p) =>
        if w.procs[p].pc.Recovering? || w.procs[p].pc.Locking? {
          AdvanceTakes(w, p);
        } else if w.procs[p].pc.Settling? || w.procs[p].pc.Checked? {
          AdvanceDrops(w, p);
        } else if w.procs[p].pc.Moving? {
          AdvanceEnds(w, p);
        } else if w.procs[p].pc.Released? {
          AdvanceWrites(w, p);
        } else {
          AdvanceKeepsAll(w, p);
        }
    }
  }

  /** Two processes that act on the journal, or one that does and one that has
      the same database open, are one and the same. */
  lemma OneOwner(w: World, p: Pid, q: Pid)
    requires Inv(w) && p in w.procs && q in w.procs && Owns(w.procs[p])
    requires Owns(w.procs[q]) || (w.procs[q].pc.Open? && w.procs[q].db == w.procs[p].db)
    ensures p == q
  {
    assert ProcessOk(w, w.procs[p]) && ProcessOk(w, w.procs[q]);
    OwnerHolds(w, w.procs[p]);
    if Owns(w.procs[q]) {
      OwnerHolds(w, w.procs[q]);
      Exclusive(w, p, q, RestoreDir);
    } else {
      OpenHolds(w.procs[q]);
      Exclusive(w, p, q, DataDir(w.procs[p].db));
    }
  }

  lemma OwnerHolds(w: World, q: Process)
    requires Owns(q) && ProcessOk(w, q)
    ensures RestoreDir in Held(q) && DataDir(q.db) in Held(q)
  {
  }

  lemma OpenHolds(q: Process)
    requires q.pc.Open?
    ensures DataDir(q.db) in Held(q)
  {
  }

  /** The process that moves. */
  lemma TakerOk(w: World, p: Pid)
    requires Enabled(w, Advance(p)) && ProcessOk(w, w.procs[p])
    requires w.procs[p].pc.Look? || w.procs[p].pc.Recovering? || w.procs[p].pc.Locking?
    ensures p in Next(w, Advance(p)).procs && ProcessOk(Next(w, Advance(p)), Next(w, Advance(p)).procs[p])
  {
    assert Next(w, Advance(p)).journal == w.journal;
  }

  lemma OwnerOk(w: World, p: Pid)
    requires Enabled(w, Advance(p)) && ProcessOk(w, w.procs[p])
    requires w.procs[p].pc.Settling? || w.procs[p].pc.Check? || w.procs[p].pc.Checked? || w.procs[p].pc.Released?
    ensures p in Next(w, Advance(p)).procs && ProcessOk(Next(w, Advance(p)), Next(w, Advance(p)).procs[p])
  {
  }

  lemma MoverOk(w: World, p: Pid)
    requires Inv(w) && Enabled(w, Advance(p)) && p in Next(w, Advance(p)).procs
    ensures ProcessOk(Next(w, Advance(p)), Next(w, Advance(p)).procs[p])
  {
    assert ProcessOk(w, w.procs[p]);
    if w.procs[p].pc.Look? || w.procs[p].pc.Recovering? || w.procs[p].pc.Locking? {
      TakerOk(w, p);
    } else if !w.procs[p].pc.Moving? {
      OwnerOk(w, p);
    }
  }

  /** A process that watches another one move: only an owner changes the journal. */
  lemma WatcherOk(w: World, p: Pid, q: Pid)
    requires Inv(w) && Enabled(w, Advance(p)) && q in w.procs && q != p
    ensures ProcessOk(Next(w, Advance(p)), w.procs[q])
  {
    assert ProcessOk(w, w.procs[q]);
    if Owns(w.procs[p]) {
      if Owns(w.procs[q]) || (w.procs[q].pc.Open? && w.procs[q].db == w.procs[p].db) {
        OneOwner(w, p, q);
      }
    } else {
      assert Next(w, Advance(p)).journal == w.journal;
    }
  }

  lemma WatcherStays(w: World, p: Pid, q: Pid)
    requires Enabled(w, Advance(p)) && q != p && q in Next(w, Advance(p)).procs
    ensures q in w.procs && Next(w, Advance(p)).procs[q] == w.procs[q]
  {
  }

  lemma StepProcess(w: World, a: Action, q: Pid)
    requires Inv(w) && Enabled(w, a) && q in Next(w, a).procs
    ensures ProcessOk(Next(w, a), Next(w, a).procs[q])
  {
    if !a.Advance? {
      if q in w.procs {
        assert ProcessOk(w, w.procs[q]);
      }
    } else if q == a.p {
      MoverOk(w, a.p);
    } else {
      WatcherStays(w, a.p, q);
      WatcherOk(w, a.p, q);
    }
  }

  lemma StepKeeps(w: World, a: Action)
    requires Inv(w) && Enabled(w, a)
    ensures Inv(Next(w, a))
  {
    StepLocks(w, a);
    forall q | q in Next(w, a).procs ensures ProcessOk(Next(w, a), Next(w, a).procs[q]) {
      StepProcess(w, a, q);
    }
  }

  lemma {:induction false} RunKeeps(w: World, run: seq<Action>)
    requires Initial(w) && LegalRun(w, run)
    ensures Inv(Exec(w, run))
  {
    if run != [] {
      RunKeeps(w, run[..|run| - 1]);
      StepKeeps(Exec(w, run[..|run| - 1]), run[|run| - 1]);
    }
  }

  // The promises

  /** No command writes to a database while a restore journal for it exists. */
  lemma NoWriterDuringRestore(w: World, run: seq<Action>, p: Pid)
    requires Initial(w) && LegalRun(w, run)
    requires p in Exec(w, run).procs && Exec(w, run).procs[p].pc.Open?
    ensures Exec(w, run).journal != Some(Exec(w, run).procs[p].db)
  {
    RunKeeps(w, run);
    assert ProcessOk(Exec(w, run), Exec(w, run).procs[p]);
  }

  /** Recovery never acts beside a restore that is still running, of its own
      database or of another one in the directory, nor beside another recovery,
      nor beside a command that has the database open. */
  lemma RecoveryActsAlone(w: World, run: seq<Action>, p: Pid, q: Pid)
    requires Initial(w) && LegalRun(w, run)
    requires p in Exec(w, run).procs && q in Exec(w, run).procs && p != q
    requires Exec(w, run).procs[p].pc.Settling?
    ensures var other := Exec(w, run).procs[q];
            !Owns(other) && !(other.pc.Open? && other.db == Exec(w, run).procs[p].db)
  {
    RunKeeps(w, run);
    var v := Exec(w, run);
    if Owns(v.procs[q]) || (v.procs[q].pc.Open? && v.procs[q].db == v.procs[p].db) {
      OneOwner(v, p, q);
    }
  }

  /** A restore never overwrites a journal, and a journal goes only when its own
      restore ends or a recovery of the same database settles it. */
  lemma JournalChangesHands(w: World, run: seq<Action>, a: Action)
    requires Initial(w) && LegalRun(w, run) && Enabled(Exec(w, run), a)
    ensures var before, after := Exec(w, run), Next(Exec(w, run), a);
            && (after.journal.Some? && after.journal != before.journal ==> before.journal.None?)
            && (before.journal.Some? && after.journal.None? ==>
                  a.Advance? && before.journal == Some(before.procs[a.p].db) && Owns(before.procs[a.p]))
  {
    RunKeeps(w, run);
    var before := Exec(w, run);
    if a.Advance? {
      assert ProcessOk(before, before.procs[a.p]);
    }
  }

  // Blob directories that two databases share

  /** Two processes with the lock of one blob directory hold different
      generations of it: a restore has renamed the directory in between. */
  lemma OneHolderPerGeneration(w: World, run: seq<Action>, p: Pid, q: Pid)
    requires Initial(w) && LegalRun(w, run) && p in Exec(w, run).procs && q in Exec(w, run).procs && p != q
    requires Exec(w, run).procs[p].store == Exec(w, run).procs[q].store
    requires Exec(w, run).procs[p].blob.Some? && Exec(w, run).procs[q].blob.Some?
    ensures Exec(w, run).procs[p].blob != Exec(w, run).procs[q].blob
  {
    RunKeeps(w, run);
    var v := Exec(w, run);
    if v.procs[p].blob == v.procs[q].blob {
      Exclusive(v, p, q, BlobDir(v.procs[p].store, v.procs[p].blob.value));
    }
  }

  /** No restore or rollback of the run renames the blob directory. */
  ghost predicate Unmoved(w: World, run: seq<Action>, s: Store) {
    forall k | 0 <= k < |run| && run[k].Swap? && run[k].p in Exec(w, run[..k]).procs :: Exec(w, run[..k]).procs[run[k].p].store != s
  }

  /** Every lock held on the directory is of one generation, the current one. */
  ghost predicate AllOf(v: World, s: Store, g: nat) {
    v.Generation(s) == g &&
    forall p :: p in v.procs && v.procs[p].store == s && v.procs[p].blob.Some? ==> v.procs[p].blob.value == g
  }

  lemma StepSameGeneration(v: World, a: Action, s: Store, g: nat)
    requires AllOf(v, s, g) && Enabled(v, a) && (a.Swap? ==> v.procs[a.p].store != s)
    ensures AllOf(Next(v, a), s, g)
  {
    forall p | p in Next(v, a).procs && (a.Spawn? || p != a.p) ensures a.Spawn? || (p in v.procs && Next(v, a).procs[p] == v.procs[p]) {
    }
  }

  lemma {:induction false} SameGeneration(w: World, run: seq<Action>, s: Store)
    requires Initial(w) && LegalRun(w, run) && Unmoved(w, run, s)
    ensures AllOf(Exec(w, run), s, w.Generation(s))
  {
    if run != [] {
      var n := |run| - 1;
      forall k | 0 <= k < n ensures run[..n][..k] == run[..k] {
      }
      SameGeneration(w, run[..n], s);
      assert run[n].Swap? ==> Exec(w, run[..n]).procs[run[n].p].store != s;
      StepSameGeneration(Exec(w, run[..n]), run[n], s, w.Generation(s));
    }
  }

  /** While the directory stays where it is, one writer uses it, whichever
      databases share it. */
  lemma OneWriterPerStore(w: World, run: seq<Action>, p: Pid, q: Pid)
    requires Initial(w) && LegalRun(w, run) && p in Exec(w, run).procs && q in Exec(w, run).procs
    requires Exec(w, run).procs[p].pc.Open? && Exec(w, run).procs[q].pc.Open?
    requires Exec(w, run).procs[p].kind.Writer? && Exec(w, run).procs[q].kind.Writer?
    requires Exec(w, run).procs[p].store == Exec(w, run).procs[q].store && Unmoved(w, run, Exec(w, run).procs[p].store)
    ensures p == q
  {
    RunKeeps(w, run);
    var v := Exec(w, run);
    SameGeneration(w, run, v.procs[p].store);
    assert ProcessOk(v, v.procs[p]) && ProcessOk(v, v.procs[q]);
    if p != q {
      OneHolderPerGeneration(w, run, p, q);
    }
  }

  // What those locks do not exclude

  const nothing := World(map[], map[], None, map[])

  /** A run from nothing, as a list that grows at its end. */
  datatype Trace = Start | After(before: Trace, last: Action)

  function State(t: Trace): World {
    match t
    case Start => nothing
    case After(before, a) => if Enabled(State(before), a) then Next(State(before), a) else State(before)
  }

  predicate Sound(t: Trace) {
    match t
    case Start => true
    case After(before, a) => Sound(before) && Enabled(State(before), a)
  }

  function Actions(t: Trace): seq<Action> {
    match t
    case Start => []
    case After(before, a) => Actions(before) + [a]
  }

  lemma {:induction false} TraceIsRun(t: Trace)
    requires Sound(t)
    ensures LegalRun(nothing, Actions(t)) && Exec(nothing, Actions(t)) == State(t)
  {
    if t.After? {
      TraceIsRun(t.before);
      assert Actions(t)[..|Actions(t)| - 1] == Actions(t.before);
    }
  }

  /** A restore of d renames blob directory s while a command of e has it open. */
  predicate MovesUnder(v: World, p: Pid, q: Pid, d: Database, e: Database, s: Store) {
    && p in v.procs && q in v.procs && v.procs[p].pc.Moving? && v.procs[q].pc.Open?
    && v.procs[p].db == d && v.procs[q].db == e && v.procs[p].store == s && v.procs[q].store == s
  }

  /** The run leads to these processes and locks, with no journal yet. */
  predicate Stands(t: Trace, procs: map<Pid, Process>, locks: set<Lock>) {
    && Sound(t) && State(t).procs == procs && State(t).holder.Keys == locks
    && State(t).journal.None? && State(t).generations == map[]
  }

  lemma Starts(t: Trace, ps: map<Pid, Process>, ls: set<Lock>, p: Pid, kind: Kind, db: Database, s: Store)
    returns (u: Trace, qs: map<Pid, Process>)
    requires Stands(t, ps, ls) && p !in ps
    ensures qs == ps[p := Process(kind, db, s, Locking(0), None)] && Stands(u, qs, ls)
  {
    u := After(t, Spawn(p, kind, db, s));
    assert Stands(u, ps[p := Process(kind, db, s, Look, None)], ls);
    u := After(u, Advance(p));
    qs := State(u).procs;
  }

  lemma Locks(t: Trace, ps: map<Pid, Process>, ls: set<Lock>, p: Pid, n: nat, l: Lock)
    returns (u: Trace, qs: map<Pid, Process>, ks: set<Lock>)
    requires Stands(t, ps, ls) && p in ps && ps[p].pc == Locking(n) && n < Total(ps[p].kind)
    requires l == CommandLock(ps[p].kind, ps[p].db, n) && l !in ls
    ensures qs == ps[p := ps[p].(pc := Locking(n + 1))] && ks == ls + {l} && Stands(u, qs, ks)
  {
    u := After(t, Advance(p));
    qs, ks := State(u).procs, ls + {l};
  }

  lemma LocksBlob(t: Trace, ps: map<Pid, Process>, ls: set<Lock>, p: Pid)
    returns (u: Trace, qs: map<Pid, Process>, ks: set<Lock>)
    requires Stands(t, ps, ls) && p in ps && ps[p].pc == Locking(Total(ps[p].kind))
    requires BlobDir(ps[p].store, 0) !in ls
    ensures qs == ps[p := ps[p].(pc := Check, blob := Some(0))] && ks == ls + {BlobDir(ps[p].store, 0)}
    ensures Stands(u, qs, ks)
  {
    u := After(t, TakeBlob(p));
    qs, ks := State(u).procs, ls + {BlobDir(ps[p].store, 0)};
  }

  lemma Checks(t: Trace, ps: map<Pid, Process>, ls: set<Lock>, p: Pid) returns (u: Trace, qs: map<Pid, Process>)
    requires Stands(t, ps, ls) && p in ps && ps[p].pc == Check
    ensures qs == ps[p := ps[p].(pc := if ps[p].kind.Restore? then Checked else Open)] && Stands(u, qs, ls)
  {
    u := After(t, Advance(p));
    qs := State(u).procs;
  }

  lemma Releases(t: Trace, ps: map<Pid, Process>, ls: set<Lock>, p: Pid)
    returns (u: Trace, qs: map<Pid, Process>, ks: set<Lock>)
    requires Stands(t, ps, ls) && p in ps && ps[p].pc == Checked && ps[p].kind.Restore? && ps[p].blob == Some(0)
    ensures qs == ps[p := ps[p].(pc := Released, blob := None)] && ks == ls - {BlobDir(ps[p].store, 0)}
    ensures Stands(u, qs, ks)
  {
    u := After(t, Advance(p));
    assert Held(ps[p]) - OrdinaryLocks(ps[p]) == {BlobDir(ps[p].store, 0)};
    qs, ks := State(u).procs, ls - {BlobDir(ps[p].store, 0)};
  }

  lemma Writes(t: Trace, ps: map<Pid, Process>, ls: set<Lock>, p: Pid) returns (u: Trace)
    requires Stands(t, ps, ls) && p in ps && ps[p].pc == Released && ps[p].kind.Restore?
    ensures Sound(u) && State(u).procs == ps[p := ps[p].(pc := Moving)] && State(u).journal == Some(ps[p].db)
  {
    u := After(t, Advance(p));
  }

  /** Locks of a restore only. */
  predicate OnlyRestoring(ls: set<Lock>, d: Database, s: Store) {
    ls <= {RestoreOf(d), RestoreDir, DataDir(d), DatabaseFile(d), BlobDir(s, 0)}
  }

  /** The restore of d is process 0: it takes its locks and stages its backup. */
  lemma {:induction false} ReachLocked(d: Database, s: Store, n: nat) returns (t: Trace, ps: map<Pid, Process>, ls: set<Lock>)
    requires n <= 4
    ensures Stands(t, ps, ls) && ls == RecoveryLocks(d, n)
    ensures 0 in ps && 1 !in ps && ps[0] == Process(Restore, d, s, Locking(n), None)
  {
    if n == 0 {
      t, ps := Starts(Start, map[], {}, 0, Restore, d, s);
      ls := {};
    } else {
      t, ps, ls := ReachLocked(d, s, n - 1);
      t, ps, ls := Locks(t, ps, ls, 0, n - 1, RecoveryLock(d, n - 1));
    }
  }

  lemma ReachChecked(d: Database, s: Store) returns (t: Trace, ps: map<Pid, Process>, ls: set<Lock>)
    ensures Stands(t, ps, ls) && OnlyRestoring(ls, d, s)
    ensures 0 in ps && 1 !in ps && ps[0] == Process(Restore, d, s, Checked, Some(0))
  {
    t, ps, ls := ReachLocked(d, s, 4);
    t, ps, ls := LocksBlob(t, ps, ls, 0);
    t, ps := Checks(t, ps, ls, 0);
  }

  /** A writer of another database starts beside it, up to the blob lock. */
  lemma ReachBeside(d: Database, e: Database, s: Store) returns (t: Trace, ps: map<Pid, Process>, ls: set<Lock>)
    requires d != e
    ensures Stands(t, ps, ls) && 0 in ps && 1 in ps
    ensures ps[0] == Process(Restore, d, s, Checked, Some(0)) && ps[1] == Process(Writer, e, s, Locking(2), None)
  {
    t, ps, ls := ReachChecked(d, s);
    t, ps := Starts(t, ps, ls, 1, Writer, e, s);
    assert DataDir(e) !in ls && DatabaseFile(e) !in ls;
    t, ps, ls := Locks(t, ps, ls, 1, 0, DataDir(e));
    t, ps, ls := Locks(t, ps, ls, 1, 1, DatabaseFile(e));
  }

  /** The restore lets the blob lock go, the writer takes it and finds no journal,
      and only then the restore writes one. */
  lemma ReachMovesUnder(d: Database, e: Database, s: Store) returns (t: Trace)
    requires d != e
    ensures Sound(t) && MovesUnder(State(t), 0, 1, d, e, s)
  {
    var ps, ls;
    t, ps, ls := ReachBeside(d, e, s);
    t, ps, ls := Releases(t, ps, ls, 0);
    t, ps, ls := LocksBlob(t, ps, ls, 1);
    t, ps := Checks(t, ps, ls, 1);
    t := Writes(t, ps, ls, 0);
  }

  /** So a restore can rename a blob directory that a command has open exactly
      when the command's database is another one: the blob lock, given back
      before the rename, does not protect a shared directory. */
  lemma MovesUnderExactly(d: Database, e: Database, s: Store)
    ensures (exists run, p, q :: LegalRun(nothing, run) && MovesUnder(Exec(nothing, run), p, q, d, e, s)) <==> d != e
  {
    if d != e {
      var t := ReachMovesUnder(d, e, s);
      TraceIsRun(t);
      assert MovesUnder(Exec(nothing, Actions(t)), 0, 1, d, e, s);
    } else if run, p, q :| LegalRun(nothing, run) && MovesUnder(Exec(nothing, run), p, q, d, e, s) {
      RunKeeps(nothing, run);
      OneOwner(Exec(nothing, run), p, q);
    }
  }
}
