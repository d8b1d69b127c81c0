/**
 The wake coordinator: it holds the operating system's completion callbacks of
 background wakes, runs the worker one permit at a time, and finishes callbacks
 when a run ends, is cancelled, or a timer fires. Everything happens on the main
 queue, so each function below is one turn. Times are microseconds.
 */
module WakeCoordinator {
  import opened WakeJournal

  datatype Report = NewData | NoData | Failed

  /** A callback not called yet. */
  datatype Held = Held(id: nat, generation: int, deadline: int)

  /** A run; marked is how many wakes had been marked when it started. */
  datatype Permit = Permit(id: nat, profile: string, generation: int, deadline: int, marked: int)

  datatype Cause = ByRun(permit: Permit) | ByOther

  /** A callback called. */
  datatype Call = Call(id: nat, generation: int, report: Report, cause: Cause)

  datatype State = State(journal: Journal, waiting: seq<Held>, active: Option<Permit>, profile: Option<string>, ui: bool,
                         attached: bool, calls: seq<Call>, permits: nat)

  const GRACE := 20_000_000

  /** The calls for the first n waiting callbacks up to a generation. */
  function Finished(waiting: seq<Held>, n: nat, generation: int, report: Report, cause: Cause): seq<Call>
    requires n <= |waiting|
  {
    if n == 0 then []
    else
      var front, h := Finished(waiting, n - 1, generation, report, cause), waiting[n - 1];
      if h.generation <= generation then front + [Call(h.id, h.generation, report, cause)] else front
  }

  function Left(waiting: seq<Held>, n: nat, generation: int): seq<Held>
    requires n <= |waiting|
  {
    if n == 0 then []
    else
      var front := Left(waiting, n - 1, generation);
      if waiting[n - 1].generation <= generation then front else front + [waiting[n - 1]]
  }

  function FinishUpTo(s: State, generation: int, report: Report, cause: Cause): State {
    s.(waiting := Left(s.waiting, |s.waiting|, generation),
       calls := s.calls + Finished(s.waiting, |s.waiting|, generation, report, cause))
  }

  function Cancel(s: State): State {
    if s.active.None? then s else FinishUpTo(s.(active := None), s.active.value.generation, Failed, ByOther)
  }

  function Oldest(waiting: seq<Held>, n: nat): Held
    requires 0 < n <= |waiting|
  {
    if n == 1 then waiting[0]
    else
      var o := Oldest(waiting, n - 1);
      if waiting[n - 1].deadline < o.deadline then waiting[n - 1] else o
  }

  function StartNext(s: State, now: int, canLoad: bool): State {
    if s.active.Some? || s.ui || s.profile.None? || !s.attached || s.waiting == [] then s
    else
      var oldest := Oldest(s.waiting, |s.waiting|);
      if oldest.deadline <= now || !canLoad || s.journal.pending <= 0 then s
      else
        var permit := Permit(s.permits, s.profile.value, s.journal.pending, oldest.deadline, s.journal.sequence);
        var s1 := s.(active := Some(permit), permits := s.permits + 1);
        if (permit.deadline - now) / 1000 <= 0 then Cancel(s1) else s1
  }

  function Receive(s: State, id: nat, started: int, now: int, engine: bool, fault: Fault, canLoad: bool): State {
    var (j, generation) := Mark(s.journal, fault);
    var s1 := s.(journal := j);
    if generation.None? then s1.(calls := s.calls + [Call(id, 0, Failed, ByOther)])
    else if s.ui then s1.(calls := s.calls + [Call(id, generation.value, NoData, ByOther)])
    else if !engine || started + GRACE <= now then s1.(calls := s.calls + [Call(id, generation.value, Failed, ByOther)])
    else StartNext(s1.(waiting := s.waiting + [Held(id, generation.value, started + GRACE)]), now, canLoad)
  }

  /** A waiting callback finishes alone. */
  function FinishOne(s: State, i: nat): State
    requires i < |s.waiting|
  {
    s.(waiting := s.waiting[..i] + s.waiting[i + 1..],
       calls := s.calls + [Call(s.waiting[i].id, s.waiting[i].generation, Failed, ByOther)])
  }

  function IndexOf(waiting: seq<Held>, id: nat, n: nat): (r: Option<nat>)
    requires n <= |waiting|
    ensures r.Some? ==> r.value < n && waiting[r.value].id == id
    ensures r.None? ==> forall i | 0 <= i < n :: waiting[i].id != id
  {
    if n == 0 then None else if waiting[n - 1].id == id then Some(n - 1) else IndexOf(waiting, id, n - 1)
  }

  /** A callback's deadline timer. */
  function TimerFires(s: State, id: nat, now: int, canLoad: bool): State {
    if IndexOf(s.waiting, id, |s.waiting|).None? then s
    else
      var s1 := if s.active.Some? && s.active.value.deadline <= now then Cancel(s) else s;
      var i := IndexOf(s1.waiting, id, |s1.waiting|);
      StartNext(if i.Some? then FinishOne(s1, i.value) else s1, now, canLoad)
  }

  /** The worker's reply to a permit: well formed or not, with or without change. */
  datatype Reply = Reply(wellFormed: bool, committed: bool)

  function Answered(s: State, permit: nat, reply: Reply, now: int, fault: Fault): State {
    if s.active.None? || s.active.value.id != permit then s
    else
      var p := s.active.value;
      var durable := now < p.deadline && reply.wellFormed;
      var (j, ack) := if durable then Acknowledge(s.journal, p.generation, fault) else (s.journal, Threw);
      var report := if ack.Threw? then Failed else if reply.committed then NewData else NoData;
      FinishUpTo(s.(journal := j, active := None), p.generation, report, ByRun(p))
  }

  function UiAttached(s: State, attached: bool): State {
    var s1 := s.(ui := attached);
    if attached then Cancel(s1) else s1
  }

  function Install(s: State, profile: string, now: int, fault: Fault, canLoad: bool): State {
    if s.profile.Some? && s.profile.value != profile then s
    else
      var (j, ok) := Bind(s.journal, Some(profile), fault);
      if ok then StartNext(s.(journal := j, profile := Some(profile)), now, canLoad) else s.(journal := j)
  }

  function AllFinished(waiting: seq<Held>, n: nat): seq<Call>
    requires n <= |waiting|
  {
    if n == 0 then []
    else AllFinished(waiting, n - 1) + [Call(waiting[n - 1].id, waiting[n - 1].generation, Failed, ByOther)]
  }

  function Unregister(s: State, fault: Fault): State {
    var s1 := Cancel(s);
    s1.(profile := None, waiting := [], calls := s1.calls + AllFinished(s1.waiting, |s1.waiting|),
        journal := Bind(s1.journal, None, fault).0)
  }

  // Runs

  datatype Event =
    | Wake(id: nat, started: int, now: int, engine: bool, fault: Fault, canLoad: bool)
    | Timer(id: nat, now: int, canLoad: bool)
    | Response(permit: nat, reply: Reply, now: int, fault: Fault)
    | Retry(now: int, canLoad: bool)
    | Ui(attached: bool)
    | Bound(profile: string, now: int, fault: Fault, canLoad: bool)
    | Unbound(fault: Fault)
    | Attach

  function Next(s: State, e: Event): State {
    match e
    case Wake(id, started, now, engine, fault, canLoad) => Receive(s, id, started, now, engine, fault, canLoad)
    case Timer(id, now, canLoad) => TimerFires(s, id, now, canLoad)
    case Response(permit, reply, now, fault) => Answered(s, permit, reply, now, fault)
    case Retry(now, canLoad) => StartNext(s, now, canLoad)
    case Ui(attached) => UiAttached(s, attached)
    case Bound(profile, now, fault, canLoad) => Install(s, profile, now, fault, canLoad)
    case Unbound(fault) => Unregister(s, fault)
    case Attach => s.(attached := true)
  }

  function Exec(j: Journal, es: seq<Event>): State {
    if es == [] then State(j, [], None, None, false, false, [], 0) else Next(Exec(j, es[..|es| - 1]), es[|es| - 1])
  }

  /** The coordinator object, on the main queue. */
  class Coordinator {
    var journal: Journal
    var waiting: seq<Held>
    var active: Option<Permit>
    var profile: Option<string>
    var ui: bool
    var attached: bool
    var calls: seq<Call>
    var permits: nat

    function View(): State
      reads this
    {
      State(journal, waiting, active, profile, ui, attached, calls, permits)
    }

    constructor (journal: Journal)
      ensures View() == Exec(journal, [])
    {
      this.journal, waiting, active, profile := journal, [], None, None;
      ui, attached, calls, permits := false, false, [], 0;
    }

    /** Calls the waiting callbacks up to a generation and drops them. */
    method FinishItems(generation: int, report: Report, cause: Cause)
      modifies this`waiting, this`calls
      ensures View() == FinishUpTo(old(View()), generation, report, cause)
    {
      var items, left := waiting, [];
      for n := 0 to |items|
        invariant waiting == items && left == Left(items, n, generation)
        invariant calls == old(calls) + Finished(items, n, generation, report, cause)
      {
        if items[n].generation <= generation {
          calls := calls + [Call(items[n].id, items[n].generation, report, cause)];
        } else {
          left := left + [items[n]];
        }
      }
      waiting := left;
    }

    method CancelRun()
      modifies this
      ensures View() == Cancel(old(View()))
    {
      if active.None? {
        return;
      }
      var generation := active.value.generation;
      active := None;
      FinishItems(generation, Failed, ByOther);
    }

    method FindOldest() returns (oldest: Held)
      requires waiting != []
      ensures oldest == Oldest(waiting, |waiting|)
    {
      oldest := waiting[0];
      for n := 1 to |waiting|
        invariant oldest == Oldest(waiting, n)
      {
        if waiting[n].deadline < oldest.deadline {
          oldest := waiting[n];
        }
      }
    }

    method StartNextRun(now: int, canLoad: bool)
      modifies this
      ensures View() == StartNext(old(View()), now, canLoad)
    {
      if active.Some? || ui || profile.None? || !attached || waiting == [] {
        return;
      }
      var oldest := FindOldest();
      if oldest.deadline <= now || !canLoad || journal.pending <= 0 {
        return;
      }
      active := Some(Permit(permits, profile.value, journal.pending, oldest.deadline, journal.sequence));
      permits := permits + 1;
      if (oldest.deadline - now) / 1000 <= 0 {
        CancelRun();
      }
    }

    method ReceiveWake(id: nat, started: int, now: int, engine: bool, fault: Fault, canLoad: bool)
      modifies this
      ensures View() == Receive(old(View()), id, started, now, engine, fault, canLoad)
    {
      var (j, generation) := Mark(journal, fault);
      journal := j;
      if generation.None? {
        calls := calls + [Call(id, 0, Failed, ByOther)];
      } else if ui {
        calls := calls + [Call(id, generation.value, NoData, ByOther)];
      } else if !engine || started + GRACE <= now {
        calls := calls + [Call(id, generation.value, Failed, ByOther)];
      } else {
        waiting := waiting + [Held(id, generation.value, started + GRACE)];
        StartNextRun(now, canLoad);
      }
    }

    method FinishHeld(i: nat)
      requires i < |waiting|
      modifies this`waiting, this`calls
      ensures View() == FinishOne(old(View()), i)
    {
      calls := calls + [Call(waiting[i].id, waiting[i].generation, Failed, ByOther)];
      waiting := waiting[..i] + waiting[i + 1..];
    }

    method TimerRuns(id: nat, now: int, canLoad: bool)
      modifies this
      ensures View() == TimerFires(old(View()), id, now, canLoad)
    {
      if IndexOf(waiting, id, |waiting|).None? {
        return;
      }
      if active.Some? && active.value.deadline <= now {
        CancelRun();
      }
      var i := IndexOf(waiting, id, |waiting|);
      if i.Some? {
        FinishHeld(i.value);
      }
      StartNextRun(now, canLoad);
    }

    method RunAnswered(permit: nat, reply: Reply, now: int, fault: Fault)
      modifies this
      ensures View() == Answered(old(View()), permit, reply, now, fault)
    {
      if active.None? || active.value.id != permit {
        return;
      }
      var p := active.value;
      var report := Failed;
      if now < p.deadline && reply.wellFormed {
        var (j, ack) := Acknowledge(journal, p.generation, fault);
        journal := j;
        if !ack.Threw? {
          report := if reply.committed then NewData else NoData;
        }
      }
      active := None;
      FinishItems(p.generation, report, ByRun(p));
    }

    method UnregisterProfile(fault: Fault)
      modifies this
      ensures View() == Unregister(old(View()), fault)
    {
      CancelRun();
      profile := None;
      var items := waiting;
      ghost var before := calls;
      for n := 0 to |items|
        invariant View() == Cancel(old(View())).(profile := None, calls := before + AllFinished(items, n))
      {
        calls := calls + [Call(items[n].id, items[n].generation, Failed, ByOther)];
      }
      waiting := [];
      var (j, ok) := Bind(journal, None, fault);
      journal := j;
    }
  }
}
