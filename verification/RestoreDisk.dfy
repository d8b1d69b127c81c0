/**
 The files a restore moves, as a disk that can lose power.

 Every rename a restore or its rollback performs stays within one item (the
 database, its -wal, its -shm, the blob directory), so the disk keeps one slot
 per item and one for the journal. A slot is what the medium held at the last
 directory sync plus the operations made since. Losing power keeps any subset
 of those operations, replayed in order.
 */
module RestoreDisk {

  datatype Option<+T> = None | Some(value: T)

  datatype Item = Db | Wal | Shm | Blobs

  predicate Companion(i: Item) { i == Wal || i == Shm }

  /** Where a file of an item can be: its live path, its .pre-restore path, the
      staged copy, or a name a rollback gave it inside staging. */
  datatype Place = Live | Aside | Staged | Withdrawn(n: nat)

  datatype Content = Original | Restored

  type Files = map<Place, Content>

  datatype Op =
    | Move(from: Place, to: Place)
    | Create(at: Place)   // a file of the restored instance appears
    | Delete(at: Place)
    | DropStaging

  /** One operation. A rename whose source is missing (an earlier rename was
      lost) does nothing; a rename onto an existing entry replaces it. */
  function Apply(op: Op, f: Files): Files {
    match op
    case Move(from, to) => if from in f then (f - {from})[to := f[from]] else f
    case Create(at) => f[at := Restored]
    case Delete(at) => f - {at}
    case DropStaging => map p | p in f && (p.Live? || p.Aside?) :: f[p]
  }

  function Replay(base: Files, log: seq<Op>): Files {
    if log == [] then base
    else Apply(log[|log| - 1], Replay(base, log[..|log| - 1]))
  }

  /** What a power loss can leave: each logged operation survives or not. */
  ghost function Survivors(base: Files, log: seq<Op>): set<Files> {
    if log == [] then {base}
    else
      var before := Survivors(base, log[..|log| - 1]);
      before + set f | f in before :: Apply(log[|log| - 1], f)
  }

  datatype Slot = Slot(base: Files, log: seq<Op>) {
    function Now(): Files { Replay(base, log) }
    ghost function Outcomes(): set<Files> { Survivors(base, log) }
    function Do(op: Op): Slot { Slot(base, log + [op]) }
    function Flush(): Slot { Slot(Now(), []) }
  }

  datatype State = Activating | Activated

  /** The journal: its state, which originals have a rollback path, and whether
      the restore covers the blob directory. */
  datatype Journal = Journal(state: State, database: bool, companions: set<Item>, blobs: bool, blobsRollback: bool)

  /** The journal file. Each write replaces it whole, so a power loss leaves the
      last synced version or any later one. */
  datatype JournalSlot = JournalSlot(base: Option<Journal>, log: seq<Option<Journal>>) {
    function Now(): Option<Journal> { if log == [] then base else log[|log| - 1] }
    ghost function Outcomes(): set<Option<Journal>> { {base} + set j | j in log }
    function Put(j: Option<Journal>): JournalSlot { JournalSlot(base, log + [j]) }
    function Flush(): JournalSlot { JournalSlot(Now(), []) }
  }

  datatype Disk = Disk(db: Slot, wal: Slot, shm: Slot, blobs: Slot, journal: JournalSlot) {
    function At(i: Item): Slot {
      match i case Db => db case Wal => wal case Shm => shm case Blobs => blobs
    }
    function With(i: Item, s: Slot): Disk {
      match i
      case Db => this.(db := s)
      case Wal => this.(wal := s)
      case Shm => this.(shm := s)
      case Blobs => this.(blobs := s)
    }
    function Now(i: Item): Files { At(i).Now() }
    ghost function Outcomes(i: Item): set<Files> { At(i).Outcomes() }
  }

  /** The instance a restore finds: which files exist, whether the backup brings
      blobs, and whether database and blob directory share a parent. */
  datatype Setup = Setup(orig: set<Item>, withBlobs: bool, oneParent: bool)

  predicate Covered(s: Setup, i: Item) { i != Blobs || s.withBlobs }

  function JournalFor(s: Setup, state: State): Journal {
    Journal(state, Db in s.orig, s.orig * {Wal, Shm}, s.withBlobs, s.withBlobs && Blobs in s.orig)
  }

  /** The items a journal gives a rollback path. */
  function Listed(j: Journal): set<Item> {
    (if j.database then {Db} else {}) + j.companions + (if j.blobsRollback then {Blobs} else {})
  }

  predicate Handles(j: Journal, i: Item) { i != Blobs || j.blobs }

  // Actions and the order the protocol demands of them.

  datatype Action =
    | Do(i: Item, op: Op)
    | WriteJournal(state: State)
    | RemoveJournal
    | SyncMain    // the database's parent directory
    | SyncBlobs   // the blob directory's parent

  function Effect(s: Setup, d: Disk, a: Action): Disk {
    match a
    case Do(i, op) => d.With(i, d.At(i).Do(op))
    case WriteJournal(state) => d.(journal := d.journal.Put(Some(JournalFor(s, state))))
    case RemoveJournal => d.(journal := d.journal.Put(None))
    case SyncMain =>
      Disk(d.db.Flush(), d.wal.Flush(), d.shm.Flush(),
           if s.oneParent then d.blobs.Flush() else d.blobs, d.journal.Flush())
    case SyncBlobs => d.(blobs := d.blobs.Flush())
  }

  ghost predicate LiveOnly(d: Disk, i: Item, c: Content) {
    forall f :: f in d.Outcomes(i) && Live in f ==> f[Live] == c
  }

  ghost predicate LiveAll(d: Disk, i: Item, c: Content) {
    forall f :: f in d.Outcomes(i) ==> Live in f && f[Live] == c
  }

  ghost predicate LiveNone(d: Disk, i: Item) {
    forall f :: f in d.Outcomes(i) ==> Live !in f
  }

  predicate LiveIs(d: Disk, i: Item, c: Content) {
    Live in d.Now(i) && d.Now(i)[Live] == c
  }

  predicate StateIs(d: Disk, state: State) {
    d.journal.Now().Some? && d.journal.Now().value.state == state
  }

  /** When the journal says "activating" and no power loss can change that. */
  predicate DurablyActivating(d: Disk) { StateIs(d, Activating) && d.journal.log == [] }

  /** The item's files are the original ones: the original is live, or there
      never was one and the live path is empty. */
  predicate IsBack(s: Setup, i: Item, f: Files) {
    if i in s.orig then Live in f && f[Live] == Original else Live !in f
  }

  /** The item's files are those of the restored instance. */
  predicate IsSwapped(s: Setup, i: Item, f: Files) {
    match i
    case Db => Live in f && f[Live] == Restored
    case Blobs => if s.withBlobs then Live in f && f[Live] == Restored else IsBack(s, i, f)
    case _ => Live in f ==> f[Live] == Restored
  }

  ghost predicate AllBack(s: Setup, d: Disk) {
    forall i, f :: f in d.Outcomes(i) ==> IsBack(s, i, f)
  }

  ghost predicate AllSwapped(s: Setup, d: Disk) {
    forall i, f :: f in d.Outcomes(i) ==> IsSwapped(s, i, f)
  }

  /** What the protocol asks before each action. The restore and recovery
      methods of RestoreHost only ever perform allowed actions. */
  ghost predicate Allowed(s: Setup, d: Disk, a: Action) {
    match a
    case Do(i, Move(Live, Aside)) =>
      DurablyActivating(d) && i in Listed(d.journal.Now().value) && LiveAll(d, i, Original)
    case Do(i, Move(Staged, Live)) =>
      && DurablyActivating(d) && (i == Db || (i == Blobs && s.withBlobs)) && Staged in d.Now(i) && LiveNone(d, i)
      && (i == Db ==> !LiveIs(d, Wal, Original) && !LiveIs(d, Shm, Original))
    case Do(i, Create(Live)) =>
      DurablyActivating(d) && Companion(i) && LiveIs(d, Db, Restored) && LiveOnly(d, i, Restored)
    case Do(i, Delete(Live)) =>
      DurablyActivating(d) && Companion(i) && LiveOnly(d, i, Restored)
    case Do(i, Move(Live, Withdrawn(_))) =>
      && StateIs(d, Activating) && Handles(d.journal.Now().value, i) && Live in d.Now(i)
      && (i in Listed(d.journal.Now().value) ==> Aside in d.Now(i))
    case Do(i, Move(Aside, Live)) =>
      && StateIs(d, Activating) && Aside in d.Now(i) && Live !in d.Now(i)
      && (Companion(i) ==> !LiveIs(d, Db, Restored))
    case Do(_, Create(Staged)) => d.journal.Now().None?
    case Do(_, DropStaging) => d.journal.Now().None?
    case Do(_, _) => false
    case WriteJournal(Activating) => d.journal.Now().None? && AllBack(s, d)
    case WriteJournal(Activated) => StateIs(d, Activating) && AllSwapped(s, d)
    case RemoveJournal => StateIs(d, Activated) || (StateIs(d, Activating) && AllBack(s, d))
    case SyncMain => true
    case SyncBlobs => true
  }

  // Runs: actions interleaved with power losses. A killed process leaves the
  // disk as it is, so it needs no event of its own.

  datatype Event = Act(a: Action) | PowerLoss(left: Disk)

  function After(s: Setup, d: Disk, e: Event): Disk {
    match e case Act(a) => Effect(s, d, a) case PowerLoss(left) => left
  }

  /** Power loss: each slot keeps one of its outcomes, and nothing is pending. */
  ghost predicate Survives(d: Disk, left: Disk) {
    && (forall i :: left.At(i).log == [] && left.At(i).base in d.Outcomes(i))
    && left.journal.log == [] && left.journal.base in d.journal.Outcomes()
  }

  ghost predicate Legal(s: Setup, d: Disk, e: Event) {
    match e case Act(a) => Allowed(s, d, a) case PowerLoss(left) => Survives(d, left)
  }

  function Exec(s: Setup, d: Disk, es: seq<Event>): Disk {
    if es == [] then d else After(s, Exec(s, d, es[..|es| - 1]), es[|es| - 1])
  }

  ghost predicate LegalRun(s: Setup, d: Disk, es: seq<Event>) {
    es == [] || (LegalRun(s, d, es[..|es| - 1]) && Legal(s, Exec(s, d, es[..|es| - 1]), es[|es| - 1]))
  }

  /** No restore in progress, nothing pending, the originals live. */
  predicate Initial(s: Setup, d: Disk) {
    && d.journal == JournalSlot(None, [])
    && forall i :: d.At(i).log == [] && d.At(i).base == (if i in s.orig then map[Live := Original] else map[])
  }
}
