/**
 The load tool's accounting: a recorder that takes one sample per registered
 operation, and a tracker that turns every acknowledged send into one awaited
 delivery per expected client. Each step below is one critical section, so any
 interleaving of the tool's goroutines is a sequence of these steps. A tracker
 call that ends several deliveries does so in several recorder steps while it
 holds its own lock: its remaining work is a set of jobs.
 */
module LoadAccounting {

  type Id = nat

  /** One simulated app instance. */
  datatype Slot = Slot(dev: int, slot: int)

  datatype Kind = Own | Delivery(slot: Slot)

  /** One registered operation: the send itself or one of its deliveries. */
  datatype Handle = Handle(id: Id, kind: Kind, at: int)

  datatype Result = Good | Missed | Unfinished | Bad

  datatype Sample = Sample(handle: Handle, result: Result)

  // The recorder

  datatype Rec = Rec(live: set<Handle>, samples: seq<Sample>)

  function Begin(r: Rec, h: Handle): Rec { r.(live := r.live + {h}) }

  /** Records a handle's one sample; nothing when it has already ended. */
  function End(r: Rec, h: Handle, result: Result): Rec {
    if h !in r.live then r else Rec(r.live - {h}, r.samples + [Sample(h, result)])
  }

  /** Ends each of the first n handles as unfinished. */
  function ForceAll(r: Rec, hs: seq<Handle>, n: nat): Rec
    requires n <= |hs|
  {
    if n == 0 then r else End(ForceAll(r, hs, n - 1), hs[n - 1], Unfinished)
  }

  function Ended(r: Rec): set<Handle> { set i | 0 <= i < |r.samples| :: r.samples[i].handle }

  /** No live handle began before the cutoff. */
  predicate Quiet(r: Rec, to: int) { forall h | h in r.live :: h.at >= to }

  /** Why settle looks again, or stops waiting. */
  datatype Wake = SomethingEnded | Cancelled | GraceOver

  datatype Option<+T> = None | Some(value: T)

  /** One round of settle: what it leaves and returns, or that it goes on. The
      order is the one in which it walks the handles it forces. */
  function SettleRound(r: Rec, to: int, wake: Wake, order: seq<Handle>): Option<(Rec, nat)> {
    if Quiet(r, to) then Some((r, 0))
    else
      match wake
      case SomethingEnded => None
      case Cancelled => Some((r, 0))
      case GraceOver => Some((ForceAll(r, order, |order|), |order|))
  }

  // The tracker

  datatype Tracked = Tracked(started: int, expected: set<Slot>, acked: bool, early: set<Slot>, handles: set<Slot>)

  type Table = map<Id, Tracked>

  /** Recorder work a tracker call still owes: register a delivery (and end it
      when it was seen early), or end one. */
  datatype Job = Open(h: Handle, seen: bool) | Close(h: Handle, result: Result)

  function Del(id: Id, slot: Slot, at: int): Handle { Handle(id, Delivery(slot), at) }

  function Start(t: Table, id: Id, started: int, expected: set<Slot>): Table {
    if expected == {} then t else t[id := Tracked(started, expected, false, {}, {})]
  }

  function Sent(t: Table, id: Id, ok: bool): (Table, set<Job>) {
    if id !in t then (t, {})
    else if !ok then (t - {id}, {})
    else
      var s := t[id];
      var left := s.expected - s.early;
      (if left == {} then t - {id} else t[id := s.(acked := true, early := {}, handles := left)],
       Opens(id, s, s.expected))
  }

  function Opens(id: Id, s: Tracked, slots: set<Slot>): set<Job> {
    set c | c in slots :: Open(Del(id, c, s.started), c in s.early)
  }

  function Closes(id: Id, s: Tracked, slots: set<Slot>, result: Result): set<Job> {
    set c | c in slots :: Close(Del(id, c, s.started), result)
  }

  function Observe(t: Table, id: Id, c: Slot): (Table, set<Job>) {
    if id !in t || c !in t[id].expected then (t, {})
    else
      var s := t[id];
      if !s.acked then (t[id := s.(early := s.early + {c})], {})
      else if c !in s.handles then (t, {})
      else
        var left := s.handles - {c};
        (if left == {} then t - {id} else t[id := s.(handles := left)], {Close(Del(id, c, s.started), Good)})
  }

  predicate Expires(s: Tracked, cutoff: int) { s.acked && s.started < cutoff }

  function Expire(t: Table, cutoff: int): (Table, set<Job>) {
    (map id | id in t && !Expires(t[id], cutoff) :: t[id],
     set id, c | id in t && Expires(t[id], cutoff) && c in t[id].handles :: Close(Del(id, c, t[id].started), Missed))
  }

  function DrainRest(t: Table): (Table, set<Job>) {
    (map[], set id, c | id in t && c in t[id].handles :: Close(Del(id, c, t[id].started), Unfinished))
  }

  // The whole tool

  datatype Phase = Begun | Registered | Answered(ok: bool) | Over(ok: bool)

  datatype Send = Send(start: int, expected: set<Slot>, phase: Phase) {
    predicate Acked() { (phase.Answered? || phase.Over?) && phase.ok }
  }

  datatype World = World(sends: map<Id, Send>, table: Table, jobs: set<Job>, rec: Rec)

  datatype Event =
    | BeginSend(id: Id, start: int, expected: set<Slot>)
    | Register(id: Id)
    | Answer(id: Id, ok: bool)
    | EndSend(id: Id, result: Result)
    | See(id: Id, slot: Slot)
    | Sweep(cutoff: int)
    | Drain
    | Work(job: Job)
    | Force(to: int, order: seq<Handle>)

  function OwnOf(w: World, id: Id): Handle
    requires id in w.sends
  {
    Handle(id, Own, w.sends[id].start)
  }

  predicate Busy(w: World, id: Id) { exists j | j in w.jobs :: j.h.id == id }

  predicate Legal(w: World, e: Event) {
    match e
    case BeginSend(id, _, _) => id !in w.sends
    case Register(id) => id in w.sends && w.sends[id].phase.Begun? && w.jobs == {}
    case Answer(id, _) => id in w.sends && w.sends[id].phase.Registered? && w.jobs == {}
    case EndSend(id, _) => id in w.sends && (w.sends[id].phase.Begun? || w.sends[id].phase.Answered?) && !Busy(w, id)
    case See(_, _) => w.jobs == {}
    case Sweep(_) => w.jobs == {}
    case Drain => w.jobs == {} && forall id | id in w.sends :: w.sends[id].phase.Over?
    case Work(job) => job in w.jobs
    case Force(to, order) =>
      && (forall h | h in order :: h in w.rec.live && h.at < to)
      && (forall h | h in w.rec.live && h.at < to :: h in order)
  }

  function Moved(w: World, id: Id, phase: Phase): map<Id, Send>
    requires id in w.sends
  {
    w.sends[id := w.sends[id].(phase := phase)]
  }

  function Next(w: World, e: Event): World
    requires Legal(w, e)
  {
    match e
    case BeginSend(id, start, expected) =>
      w.(sends := w.sends[id := Send(start, expected, Begun)], rec := Begin(w.rec, Handle(id, Own, start)))
    case Register(id) =>
      w.(sends := Moved(w, id, Registered), table := Start(w.table, id, w.sends[id].start, w.sends[id].expected))
    case Answer(id, ok) =>
      var (t, jobs) := Sent(w.table, id, ok);
      w.(sends := Moved(w, id, Answered(ok)), table := t, jobs := jobs)
    case EndSend(id, result) =>
      var ok := w.sends[id].phase.Answered? && w.sends[id].phase.ok;
      w.(sends := Moved(w, id, Over(ok)), rec := End(w.rec, OwnOf(w, id), result))
    case See(id, slot) =>
      var (t, jobs) := Observe(w.table, id, slot);
      w.(table := t, jobs := jobs)
    case Sweep(cutoff) =>
      var (t, jobs) := Expire(w.table, cutoff);
      w.(table := t, jobs := jobs)
    case Drain =>
      var (t, jobs) := DrainRest(w.table);
      w.(table := t, jobs := jobs)
    case Work(job) =>
      (match job
       case Open(h, seen) =>
         w.(jobs := w.jobs - {job} + (if seen then {Close(h, Good)} else {}), rec := Begin(w.rec, h))
       case Close(h, result) => w.(jobs := w.jobs - {job}, rec := End(w.rec, h, result)))
    case Force(to, order) => w.(rec := ForceAll(w.rec, order, |order|))
  }

  predicate LegalRun(es: seq<Event>)
    decreases |es|, 0
  {
    es == [] || (LegalRun(es[..|es| - 1]) && Legal(Exec(es[..|es| - 1]), es[|es| - 1]))
  }

  function Exec(es: seq<Event>): World
    requires LegalRun(es)
    decreases |es|, 1
  {
    if es == [] then World(map[], map[], {}, Rec({}, [])) else Next(Exec(es[..|es| - 1]), es[|es| - 1])
  }

  /** The recorder, under its lock. */
  class Recorder {
    var live: set<Handle>
    var samples: seq<Sample>

    function View(): Rec
      reads this
    {
      Rec(live, samples)
    }

    constructor ()
      ensures View() == Rec({}, [])
    {
      live, samples := {}, [];
    }

    method BeginOp(h: Handle)
      modifies this
      ensures View() == Begin(old(View()), h)
    {
      live := live + {h};
    }

    method EndOp(h: Handle, result: Result) returns (ended: bool)
      modifies this
      ensures View() == End(old(View()), h, result) && (ended <==> h in old(live))
    {
      if h !in live {
        return false;
      }
      live := live - {h};
      samples := samples + [Sample(h, result)];
      ended := true;
    }

    method AnyPending(to: int) returns (pending: bool)
      ensures pending <==> !Quiet(View(), to)
    {
      var rest := live;
      while rest != {}
        invariant rest <= live && forall h | h in live && h !in rest :: h.at >= to
      {
        var h :| h in rest;
        if h.at < to {
          return true;
        }
        rest := rest - {h};
      }
      pending := false;
    }

    /** One round of settle's wait. */
    method Settle(to: int, wake: Wake, order: seq<Handle>) returns (forced: Option<nat>)
      requires forall h | h in order :: h in live && h.at < to
      modifies this
      ensures var round := SettleRound(old(View()), to, wake, order);
        if round.Some? then View() == round.value.0 && forced == Some(round.value.1)
        else View() == old(View()) && forced == None
    {
      var pending := AnyPending(to);
      if !pending || wake.Cancelled? {
        return Some(0);
      }
      if wake.SomethingEnded? {
        return None;
      }
      for n := 0 to |order|
        invariant View() == ForceAll(old(View()), order, n)
      {
        var ended := EndOp(order[n], Unfinished);
      }
      forced := Some(|order|);
    }
  }

  /** The tracker, under its lock, with the recorder it reports to. */
  class Tracker {
    const rec: Recorder
    var sends: Table

    constructor (rec: Recorder)
      ensures this.rec == rec && sends == map[]
    {
      this.rec, sends := rec, map[];
    }

    method StartSend(id: Id, started: int, expected: set<Slot>)
      modifies this
      ensures sends == Start(old(sends), id, started, expected)
    {
      if expected != {} {
        sends := sends[id := Tracked(started, expected, false, {}, {})];
      }
    }

    /** The deliveries are opened in some order, each early one ended at once. */
    method SentSend(id: Id, ok: bool) returns (ghost order: seq<Job>)
      modifies this, rec
      ensures sends == Sent(old(sends), id, ok).0
      ensures JobsOf(order) == Sent(old(sends), id, ok).1
      ensures rec.View() == DoAll(old(rec.View()), order, |order|)
    {
      order := [];
      if id !in sends {
        return;
      }
      if !ok {
        sends := sends - {id};
        return;
      }
      var s := sends[id];
      var rest, handles := s.expected, {};
      while rest != {}
        invariant sends == old(sends) && rest <= s.expected && handles == s.expected - rest - s.early
        invariant JobsOf(order) == Opens(id, s, s.expected - rest)
        invariant rec.View() == DoAll(old(rec.View()), order, |order|)
      {
        var c :| c in rest;
        var h := Del(id, c, s.started);
        rec.BeginOp(h);
        if c in s.early {
          var ended := rec.EndOp(h, Good);
        } else {
          handles := handles + {c};
        }
        OneMore(old(rec.View()), order, Open(h, c in s.early));
        assert Opens(id, s, s.expected - (rest - {c})) == Opens(id, s, s.expected - rest) + {Open(h, c in s.early)};
        order, rest := order + [Open(h, c in s.early)], rest - {c};
      }
      assert handles == s.expected - s.early;
      if handles == {} {
        sends := sends - {id};
      } else {
        sends := sends[id := s.(acked := true, early := {}, handles := handles)];
      }
    }

    method ObserveEvent(id: Id, c: Slot)
      modifies this, rec
      ensures sends == Observe(old(sends), id, c).0
      ensures rec.View() == var jobs := Observe(old(sends), id, c).1;
        if jobs == {} then old(rec.View()) else End(old(rec.View()), Del(id, c, old(sends)[id].started), Good)
    {
      if id !in sends || c !in sends[id].expected {
        return;
      }
      var s := sends[id];
      if !s.acked {
        sends := sends[id := s.(early := s.early + {c})];
        return;
      }
      if c !in s.handles {
        return;
      }
      var left := s.handles - {c};
      if left == {} {
        sends := sends - {id};
      } else {
        sends := sends[id := s.(handles := left)];
      }
      var ended := rec.EndOp(Del(id, c, s.started), Good);
    }

    /** Ends one send's awaited deliveries in some order. */
    method CloseSend(id: Id, s: Tracked, result: Result, ghost before: seq<Job>, ghost start: Rec)
      returns (ghost order: seq<Job>)
      requires rec.View() == DoAll(start, before, |before|)
      modifies rec
      ensures before <= order && rec.View() == DoAll(start, order, |order|)
      ensures JobsOf(order) == JobsOf(before) + Closes(id, s, s.handles, result)
    {
      order := before;
      var rest := s.handles;
      while rest != {}
        invariant rest <= s.handles && before <= order && rec.View() == DoAll(start, order, |order|)
        invariant JobsOf(order)
               == JobsOf(before) + Closes(id, s, s.handles - rest, result)
      {
        var c :| c in rest;
        var h := Del(id, c, s.started);
        var ended := rec.EndOp(h, result);
        OneMore(start, order, Close(h, result));
        assert Closes(id, s, s.handles - (rest - {c}), result) == Closes(id, s, s.handles - rest, result) + {Close(h, result)};
        order, rest := order + [Close(h, result)], rest - {c};
      }
    }

    method ExpireSends(cutoff: int) returns (ghost order: seq<Job>)
      modifies this, rec
      ensures sends == Expire(old(sends), cutoff).0
      ensures JobsOf(order) == Expire(old(sends), cutoff).1
      ensures rec.View() == DoAll(old(rec.View()), order, |order|)
    {
      order := [];
      ghost var was := sends;
      var rest := sends.Keys;
      while rest != {}
        invariant rest <= was.Keys
        invariant sends == map id | id in was && (id in rest || !Expires(was[id], cutoff)) :: was[id]
        invariant rec.View() == DoAll(old(rec.View()), order, |order|)
        invariant JobsOf(order) == Expired(was, was.Keys - rest, cutoff)
      {
        var id :| id in rest;
        assert Expired(was, was.Keys - (rest - {id}), cutoff) == Expired(was, was.Keys - rest, cutoff)
            + if Expires(was[id], cutoff) then Closes(id, was[id], was[id].handles, Missed) else {};
        if Expires(sends[id], cutoff) {
          order := CloseSend(id, sends[id], Missed, order, old(rec.View()));
          sends := sends - {id};
        }
        rest := rest - {id};
      }
    }

    /** What is left after the last sweep is unfinished. */
    method DrainSends() returns (ghost order: seq<Job>)
      modifies this, rec
      ensures sends == map[] && JobsOf(order) == DrainRest(old(sends)).1
      ensures rec.View() == DoAll(old(rec.View()), order, |order|)
    {
      order := [];
      ghost var was := sends;
      while sends != map[]
        invariant forall id | id in sends :: id in was && sends[id] == was[id]
        invariant rec.View() == DoAll(old(rec.View()), order, |order|)
        invariant JobsOf(order) == Drained(was, was.Keys - sends.Keys)
        decreases sends.Keys
      {
        assert sends.Keys != {};
        var id :| id in sends.Keys;
        assert Drained(was, was.Keys - (sends.Keys - {id}))
            == Drained(was, was.Keys - sends.Keys) + Closes(id, was[id], was[id].handles, Unfinished);
        order := CloseSend(id, sends[id], Unfinished, order, old(rec.View()));
        sends := sends - {id};
      }
    }
  }

  function Drained(t: Table, ids: set<Id>): set<Job>
    requires ids <= t.Keys
  {
    set id, c | id in ids && c in t[id].handles :: Close(Del(id, c, t[id].started), Unfinished)
  }

  function Expired(t: Table, ids: set<Id>, cutoff: int): set<Job>
    requires ids <= t.Keys
  {
    set id, c | id in ids && Expires(t[id], cutoff) && c in t[id].handles :: Close(Del(id, c, t[id].started), Missed)
  }

  /** A whole job at once. */
  function Do(r: Rec, j: Job): Rec {
    match j
    case Open(h, seen) => if seen then End(Begin(r, h), h, Good) else Begin(r, h)
    case Close(h, result) => End(r, h, result)
  }

  function DoAll(r: Rec, order: seq<Job>, n: nat): Rec
    requires n <= |order|
  {
    if n == 0 then r else Do(DoAll(r, order, n - 1), order[n - 1])
  }

  function JobsOf(order: seq<Job>): set<Job> { set j | j in order }

  lemma {:induction false} DoPrefix(r: Rec, order: seq<Job>, j: Job, n: nat)
    requires n <= |order|
    ensures DoAll(r, order + [j], n) == DoAll(r, order, n)
  {
    if n > 0 {
      DoPrefix(r, order, j, n - 1);
    }
  }

  lemma OneMore(r: Rec, order: seq<Job>, j: Job)
    ensures DoAll(r, order + [j], |order| + 1) == Do(DoAll(r, order, |order|), j)
    ensures JobsOf(order + [j]) == JobsOf(order) + {j}
  {
    DoPrefix(r, order, j, |order|);
  }
}
