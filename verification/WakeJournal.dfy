/**
 The protected wake journal: a counter of wakes, the generation still pending,
 the bound profile, and the generic notices shown. Every operation loads, changes
 and saves; a save may fail before or after the new state is in place.
 */
module WakeJournal {

  datatype Option<+T> = None | Some(value: T)

  const MAX_SEQUENCE := 0x7fff_ffff_ffff_ffff
  const NOTICE_WINDOW := 3_600_000
  const MAX_NOTICES := 4096

  type Key = string

  datatype Journal = Journal(sequence: int, pending: int, profile: Option<string>, notices: map<Key, int>,
                             noticeClock: int)

  /** How the storage behaves in one operation. */
  datatype Fault = Fine | CannotLoad | SaveFailsBefore | SaveFailsAfter

  /** What is stored after an operation that wants to save next. */
  function Stored(j: Journal, next: Journal, fault: Fault): Journal {
    if fault.CannotLoad? || fault.SaveFailsBefore? then j else next
  }

  function Mark(j: Journal, fault: Fault): (Journal, Option<int>) {
    if fault.CannotLoad? || j.sequence >= MAX_SEQUENCE then (j, None)
    else
      var next := j.(sequence := j.sequence + 1, pending := j.sequence + 1);
      (Stored(j, next, fault), if fault.Fine? then Some(next.pending) else None)
  }

  datatype Ack = Threw | Returned(cleared: bool)

  function Acknowledge(j: Journal, generation: int, fault: Fault): (Journal, Ack) {
    if fault.CannotLoad? then (j, Threw)
    else if generation <= 0 || j.pending != generation then (j, Returned(false))
    else (Stored(j, j.(pending := 0), fault), if fault.Fine? then Returned(true) else Threw)
  }

  function Bind(j: Journal, profile: Option<string>, fault: Fault): (Journal, bool) {
    var next := j.(profile := profile, pending := if profile.None? then 0 else j.pending);
    (Stored(j, next, fault), fault.Fine?)
  }

  /** Whether a notice may be shown now; None when the storage failed or refused. */
  function ClaimNotice(j: Journal, key: Key, now: int, fault: Fault): (Journal, Option<bool>) {
    if fault.CannotLoad? || now < j.noticeClock then (j, None)
    else
      var recent := map k | k in j.notices && now - j.notices[k] <= NOTICE_WINDOW :: j.notices[k];
      var isNew := key !in recent;
      if isNew && |recent| >= MAX_NOTICES then (j, None)
      else
        var next := j.(notices := if isNew then recent[key := now] else recent, noticeClock := now);
        (Stored(j, next, fault), if fault.Fine? then Some(isNew) else None)
  }

  /** The journal's file. */
  class WakeFile {
    var state: Journal

    constructor (state: Journal)
      ensures this.state == state
    {
      this.state := state;
    }

    method MarkWake(fault: Fault) returns (generation: Option<int>)
      modifies this
      ensures (state, generation) == Mark(old(state), fault)
    {
      if fault.CannotLoad? || state.sequence >= MAX_SEQUENCE {
        return None;
      }
      var next := state.sequence + 1;
      if !fault.SaveFailsBefore? {
        state := state.(sequence := next, pending := next);
      }
      generation := if fault.Fine? then Some(next) else None;
    }

    method AcknowledgeWake(generation: int, fault: Fault) returns (r: Ack)
      modifies this
      ensures (state, r) == Acknowledge(old(state), generation, fault)
    {
      if fault.CannotLoad? {
        return Threw;
      }
      if generation <= 0 || state.pending != generation {
        return Returned(false);
      }
      if !fault.SaveFailsBefore? {
        state := state.(pending := 0);
      }
      r := if fault.Fine? then Returned(true) else Threw;
    }

    method BindProfile(profile: Option<string>, fault: Fault) returns (ok: bool)
      modifies this
      ensures (state, ok) == Bind(old(state), profile, fault)
    {
      if !fault.CannotLoad? && !fault.SaveFailsBefore? {
        state := state.(profile := profile, pending := if profile.None? then 0 else state.pending);
      }
      ok := fault.Fine?;
    }

    method ClaimNoticeOnce(key: Key, now: int, fault: Fault) returns (r: Option<bool>)
      modifies this
      ensures (state, r) == ClaimNotice(old(state), key, now, fault)
    {
      if fault.CannotLoad? || now < state.noticeClock {
        return None;
      }
      var recent := map k | k in state.notices && now - state.notices[k] <= NOTICE_WINDOW :: state.notices[k];
      var isNew := key !in recent;
      if isNew && |recent| >= MAX_NOTICES {
        return None;
      }
      if !fault.SaveFailsBefore? {
        state := state.(notices := if isNew then recent[key := now] else recent, noticeClock := now);
      }
      r := if fault.Fine? then Some(isNew) else None;
    }
  }

  // Any run of the journal, across restarts of the app

  datatype Op =
    | MarkOp(fault: Fault)
    | AckOp(generation: int, fault: Fault)
    | BindOp(profile: Option<string>, fault: Fault)
    | ClaimOp(key: Key, now: int, fault: Fault)

  function After(j: Journal, op: Op): Journal {
    match op
    case MarkOp(fault) => Mark(j, fault).0
    case AckOp(generation, fault) => Acknowledge(j, generation, fault).0
    case BindOp(profile, fault) => Bind(j, profile, fault).0
    case ClaimOp(key, now, fault) => ClaimNotice(j, key, now, fault).0
  }

  function Run(j: Journal, ops: seq<Op>): Journal {
    if ops == [] then j else After(Run(j, ops[..|ops| - 1]), ops[|ops| - 1])
  }

  /** Either nothing is pending or the latest wake is. */
  predicate Sound(j: Journal) {
    0 <= j.pending <= j.sequence <= MAX_SEQUENCE && (j.pending == 0 || j.pending == j.sequence)
  }

  lemma {:induction false} RunIsSound(j: Journal, ops: seq<Op>)
    requires Sound(j)
    ensures Sound(Run(j, ops)) && Run(j, ops).sequence >= j.sequence
  {
    if ops != [] {
      RunIsSound(j, ops[..|ops| - 1]);
    }
  }

  /** A pending wake stays pending, whatever fails and restarts, until its own
      or a later generation is acknowledged or the profile is unbound. */
  lemma {:induction false} WakeStaysPending(j: Journal, ops: seq<Op>, g: int)
    requires Sound(j) && 0 < g <= j.pending
    requires forall i | 0 <= i < |ops| :: (ops[i].AckOp? ==> ops[i].generation < g) && (ops[i].BindOp? ==> ops[i].profile.Some?)
    ensures Run(j, ops).pending >= g
  {
    if ops != [] {
      RunIsSound(j, ops[..|ops| - 1]);
      WakeStaysPending(j, ops[..|ops| - 1], g);
    }
  }

  // Notices

  predicate Shown(j: Journal, op: Op, key: Key) {
    op.ClaimOp? && op.key == key && ClaimNotice(j, op.key, op.now, op.fault).1 == Some(true)
  }

  lemma {:induction false} RunKeepsNotice(j: Journal, ops: seq<Op>, key: Key, at: int)
    requires key in j.notices && j.notices[key] == at && at <= j.noticeClock
    ensures var q := Run(j, ops);
      q.noticeClock >= j.noticeClock && (q.noticeClock <= at + NOTICE_WINDOW ==> key in q.notices && q.notices[key] == at)
  {
    if ops != [] {
      RunKeepsNotice(j, ops[..|ops| - 1], key, at);
    }
  }

  /** A notice is not shown again within the hour, whatever else happens. */
  lemma NoticeIsNotRepeated(j: Journal, first: Op, between: seq<Op>, second: Op, key: Key)
    requires Shown(j, first, key)
    requires Shown(Run(After(j, first), between), second, key)
    ensures second.now > first.now + NOTICE_WINDOW
  {
    var j1 := After(j, first);
    RunKeepsNotice(j1, between, key, first.now);
  }
}
