/**
 What the coordinator promises in every run: each callback is called exactly
 once and no later than its timer, success is reported only for wakes that were
 marked when the run began, and a newer wake outlives the run it interrupts.
 */
module WakeProofs {
  import opened WakeJournal
  import opened WakeCoordinator

  /** How often a callback is waiting, and how often it has been called. */
  function HeldCount(w: seq<Held>, id: nat): nat {
    if w == [] then 0 else HeldCount(w[..|w| - 1], id) + if w[|w| - 1].id == id then 1 else 0
  }

  function CallCount(c: seq<Call>, id: nat): nat {
    if c == [] then 0 else CallCount(c[..|c| - 1], id) + if c[|c| - 1].id == id then 1 else 0
  }

  function Total(s: State, id: nat): nat { HeldCount(s.waiting, id) + CallCount(s.calls, id) }

  lemma {:induction false} HeldJoin(a: seq<Held>, b: seq<Held>, id: nat)
    ensures HeldCount(a + b, id) == HeldCount(a, id) + HeldCount(b, id)
  {
    if b == [] {
      assert a + b == a;
    } else {
      HeldJoin(a, b[..|b| - 1], id);
      assert (a + b)[..|a + b| - 1] == a + b[..|b| - 1];
    }
  }

  lemma {:induction false} CallJoin(a: seq<Call>, b: seq<Call>, id: nat)
    ensures CallCount(a + b, id) == CallCount(a, id) + CallCount(b, id)
  {
    if b == [] {
      assert a + b == a;
    } else {
      CallJoin(a, b[..|b| - 1], id);
      assert (a + b)[..|a + b| - 1] == a + b[..|b| - 1];
    }
  }

  lemma OneMoreHeld(w: seq<Held>, h: Held, id: nat)
    ensures HeldCount(w + [h], id) == HeldCount(w, id) + if h.id == id then 1 else 0
  {
    assert (w + [h])[..|w|] == w;
  }

  lemma OneMoreCall(c: seq<Call>, x: Call, id: nat)
    ensures CallCount(c + [x], id) == CallCount(c, id) + if x.id == id then 1 else 0
  {
    assert (c + [x])[..|c|] == c;
  }

  // Conservation: a callback leaves the waiting list only by being called

  /** Nothing waiting is lost or gained without a call. */
  predicate Conserves(s: State, t: State, id: nat) {
    Total(t, id) == Total(s, id) && HeldCount(t.waiting, id) <= HeldCount(s.waiting, id)
  }

  lemma {:induction false} FinishMoves(w: seq<Held>, n: nat, g: int, report: Report, cause: Cause, id: nat)
    requires n <= |w|
    ensures HeldCount(Left(w, n, g), id) + CallCount(Finished(w, n, g, report, cause), id) == HeldCount(w[..n], id)
  {
    if n > 0 {
      FinishMoves(w, n - 1, g, report, cause, id);
      var h := w[n - 1];
      assert w[..n][..n - 1] == w[..n - 1];
      if h.generation <= g {
        OneMoreCall(Finished(w, n - 1, g, report, cause), Call(h.id, h.generation, report, cause), id);
      } else {
        OneMoreHeld(Left(w, n - 1, g), h, id);
      }
    }
  }

  lemma FinishUpToConserves(s: State, g: int, report: Report, cause: Cause, id: nat)
    ensures Conserves(s, FinishUpTo(s, g, report, cause), id)
  {
    FinishMoves(s.waiting, |s.waiting|, g, report, cause, id);
    CallJoin(s.calls, Finished(s.waiting, |s.waiting|, g, report, cause), id);
    assert s.waiting[..|s.waiting|] == s.waiting;
  }

  lemma CancelConserves(s: State, id: nat)
    ensures Conserves(s, Cancel(s), id)
  {
    if s.active.Some? {
      FinishUpToConserves(s.(active := None), s.active.value.generation, Failed, ByOther, id);
    }
  }

  lemma StartConserves(s: State, now: int, canLoad: bool, id: nat)
    ensures Conserves(s, StartNext(s, now, canLoad), id)
  {
    if !(s.active.Some? || s.ui || s.profile.None? || !s.attached || s.waiting == []) {
      var oldest := Oldest(s.waiting, |s.waiting|);
      var permit := Permit(s.permits, s.profile.value, s.journal.pending, oldest.deadline, s.journal.sequence);
      CancelConserves(s.(active := Some(permit), permits := s.permits + 1), id);
    }
  }

  lemma FinishOneConserves(s: State, i: nat, id: nat)
    requires i < |s.waiting|
    ensures Conserves(s, FinishOne(s, i), id)
    ensures s.waiting[i].id == id ==> HeldCount(FinishOne(s, i).waiting, id) == HeldCount(s.waiting, id) - 1
  {
    var h := s.waiting[i];
    HeldJoin(s.waiting[..i], s.waiting[i + 1..], id);
    HeldJoin(s.waiting[..i] + [h], s.waiting[i + 1..], id);
    OneMoreHeld(s.waiting[..i], h, id);
    assert s.waiting == s.waiting[..i] + [h] + s.waiting[i + 1..];
    OneMoreCall(s.calls, Call(h.id, h.generation, Failed, ByOther), id);
  }

  lemma {:induction false} NotHeld(w: seq<Held>, id: nat)
    requires forall i | 0 <= i < |w| :: w[i].id != id
    ensures HeldCount(w, id) == 0
  {
    if w != [] {
      NotHeld(w[..|w| - 1], id);
    }
  }

  lemma TimerConserves(s: State, timer: nat, now: int, canLoad: bool, id: nat)
    ensures Conserves(s, TimerFires(s, timer, now, canLoad), id)
    ensures timer == id && HeldCount(s.waiting, id) <= 1 ==> HeldCount(TimerFires(s, timer, now, canLoad).waiting, id) == 0
  {
    if IndexOf(s.waiting, timer, |s.waiting|).None? {
      NotHeld(s.waiting, timer);
    } else {
      var s1 := if s.active.Some? && s.active.value.deadline <= now then Cancel(s) else s;
      CancelConserves(s, id);
      var i := IndexOf(s1.waiting, timer, |s1.waiting|);
      if i.Some? {
        FinishOneConserves(s1, i.value, id);
        StartConserves(FinishOne(s1, i.value), now, canLoad, id);
      } else {
        NotHeld(s1.waiting, timer);
        StartConserves(s1, now, canLoad, id);
      }
    }
  }

  lemma {:induction false} AllFinishedMoves(w: seq<Held>, n: nat, id: nat)
    requires n <= |w|
    ensures CallCount(AllFinished(w, n), id) == HeldCount(w[..n], id)
  {
    if n > 0 {
      AllFinishedMoves(w, n - 1, id);
      OneMoreCall(AllFinished(w, n - 1), Call(w[n - 1].id, w[n - 1].generation, Failed, ByOther), id);
      assert w[..n][..n - 1] == w[..n - 1];
    }
  }

  lemma UnregisterConserves(s: State, fault: Fault, id: nat)
    ensures Conserves(s, Unregister(s, fault), id)
  {
    CancelConserves(s, id);
    var s1 := Cancel(s);
    AllFinishedMoves(s1.waiting, |s1.waiting|, id);
    CallJoin(s1.calls, AllFinished(s1.waiting, |s1.waiting|), id);
    assert s1.waiting[..|s1.waiting|] == s1.waiting;
  }

  lemma AnswerConserves(s: State, permit: nat, reply: Reply, now: int, fault: Fault, id: nat)
    ensures Conserves(s, Answered(s, permit, reply, now, fault), id)
  {
    if s.active.Some? && s.active.value.id == permit {
      var p := s.active.value;
      var durable := now < p.deadline && reply.wellFormed;
      var (j, ack) := if durable then Acknowledge(s.journal, p.generation, fault) else (s.journal, Threw);
      var report := if ack.Threw? then Failed else if reply.committed then NewData else NoData;
      FinishUpToConserves(s.(journal := j, active := None), p.generation, report, ByRun(p), id);
    }
  }

  lemma HoldConserves(s: State, j: Journal, h: Held, now: int, canLoad: bool, id: nat)
    ensures
      var t := StartNext(s.(journal := j, waiting := s.waiting + [h]), now, canLoad);
      && Total(t, id) == Total(s, id) + (if h.id == id then 1 else 0)
      && HeldCount(t.waiting, id) <= HeldCount(s.waiting, id) + if h.id == id then 1 else 0
  {
    OneMoreHeld(s.waiting, h, id);
    StartConserves(s.(journal := j, waiting := s.waiting + [h]), now, canLoad, id);
  }

  lemma ReceiveConserves(s: State, e: Event, id: nat)
    requires e.Wake?
    ensures Total(Next(s, e), id) == Total(s, id) + if e.id == id then 1 else 0
    ensures HeldCount(Next(s, e).waiting, id) <= HeldCount(s.waiting, id) + if e.id == id then 1 else 0
  {
    var (j, generation) := Mark(s.journal, e.fault);
    if generation.None? {
      OneMoreCall(s.calls, Call(e.id, 0, Failed, ByOther), id);
    } else if s.ui {
      OneMoreCall(s.calls, Call(e.id, generation.value, NoData, ByOther), id);
    } else if !e.engine || e.started + GRACE <= e.now {
      OneMoreCall(s.calls, Call(e.id, generation.value, Failed, ByOther), id);
    } else {
      HoldConserves(s, j, Held(e.id, generation.value, e.started + GRACE), e.now, e.canLoad, id);
    }
  }

  /** A step adds only the callback it receives, and loses none. */
  lemma StepConserves(s: State, e: Event, id: nat)
    ensures Total(Next(s, e), id) == Total(s, id) + if e.Wake? && e.id == id then 1 else 0
    ensures HeldCount(Next(s, e).waiting, id) <= HeldCount(s.waiting, id) + if e.Wake? && e.id == id then 1 else 0
  {
    match e
    case Wake(_, _, _, _, _, _) => ReceiveConserves(s, e, id);
    case Timer(timer, now, canLoad) => TimerConserves(s, timer, now, canLoad, id);
    case Response(permit, reply, now, fault) => AnswerConserves(s, permit, reply, now, fault, id);
    case Retry(now, canLoad) => StartConserves(s, now, canLoad, id);
    case Ui(attached) => CancelConserves(s.(ui := attached), id);
    case Bound(profile, now, fault, canLoad) =>
      StartConserves(s.(journal := Bind(s.journal, Some(profile), fault).0, profile := Some(profile)), now, canLoad, id);
    case Unbound(fault) => UnregisterConserves(s, fault, id);
    case Attach =>
  }

  // What is promised

  /** How often a run received a callback. */
  function Wakes(es: seq<Event>, id: nat): nat {
    if es == [] then 0 else Wakes(es[..|es| - 1], id) + if es[|es| - 1].Wake? && es[|es| - 1].id == id then 1 else 0
  }

  lemma {:induction false} RunConserves(j: Journal, es: seq<Event>, id: nat)
    ensures Total(Exec(j, es), id) == Wakes(es, id)
  {
    if es != [] {
      RunConserves(j, es[..|es| - 1], id);
      StepConserves(Exec(j, es[..|es| - 1]), es[|es| - 1], id);
    }
  }

  lemma {:induction false} StaysCalled(j: Journal, es: seq<Event>, k: nat, id: nat)
    requires k <= |es| && Wakes(es, id) == Wakes(es[..k], id) && HeldCount(Exec(j, es[..k]).waiting, id) == 0
    ensures HeldCount(Exec(j, es).waiting, id) == 0
  {
    if k == |es| {
      assert es[..k] == es;
    } else {
      var front := es[..|es| - 1];
      assert front[..k] == es[..k];
      WakesGrow(front, k, id);
      StaysCalled(j, front, k, id);
      StepConserves(Exec(j, front), es[|es| - 1], id);
    }
  }

  lemma {:induction false} WakesGrow(es: seq<Event>, k: nat, id: nat)
    requires k <= |es|
    ensures Wakes(es[..k], id) <= Wakes(es, id)
  {
    if k == |es| {
      assert es[..k] == es;
    } else {
      WakesGrow(es[..|es| - 1], k, id);
      assert es[..|es| - 1][..k] == es[..k];
    }
  }

  /** A callback received once is waiting or has been called, once in all; and
      once its timer has run, it has been called. */
  lemma CalledExactlyOnce(j: Journal, es: seq<Event>, id: nat)
    requires Wakes(es, id) == 1
    ensures HeldCount(Exec(j, es).waiting, id) + CallCount(Exec(j, es).calls, id) == 1
    ensures (exists k | 0 <= k < |es| :: es[k].Timer? && es[k].id == id && Wakes(es[..k], id) == 1) ==>
              CallCount(Exec(j, es).calls, id) == 1
  {
    RunConserves(j, es, id);
    if k :| 0 <= k < |es| && es[k].Timer? && es[k].id == id && Wakes(es[..k], id) == 1 {
      var s := Exec(j, es[..k]);
      RunConserves(j, es[..k], id);
      TimerConserves(s, id, es[k].now, es[k].canLoad, id);
      assert es[..k + 1][..k] == es[..k];
      StaysCalled(j, es, k + 1, id);
    }
  }

  // Generations

  predicate CallOk(c: Call) {
    c.cause.ByRun? && c.report != Failed ==> c.generation <= c.cause.permit.generation <= c.cause.permit.marked
  }

  ghost predicate Inv(s: State) {
    && Sound(s.journal)
    && (s.active.Some? ==> 0 < s.active.value.generation <= s.active.value.marked <= s.journal.sequence)
    && (forall i | 0 <= i < |s.calls| :: CallOk(s.calls[i]))
  }

  lemma {:induction false} FinishedOk(w: seq<Held>, n: nat, g: int, report: Report, cause: Cause)
    requires n <= |w| && (cause.ByRun? ==> g == cause.permit.generation <= cause.permit.marked)
    ensures forall i | 0 <= i < |Finished(w, n, g, report, cause)| :: CallOk(Finished(w, n, g, report, cause)[i])
  {
    if n > 0 {
      FinishedOk(w, n - 1, g, report, cause);
    }
  }

  lemma CancelKeeps(s: State)
    requires Inv(s)
    ensures Inv(Cancel(s)) && Cancel(s).journal == s.journal
  {
    if s.active.Some? {
      FinishedOk(s.waiting, |s.waiting|, s.active.value.generation, Failed, ByOther);
    }
  }

  lemma StartKeeps(s: State, now: int, canLoad: bool)
    requires Inv(s)
    ensures Inv(StartNext(s, now, canLoad)) && StartNext(s, now, canLoad).journal == s.journal
  {
    if !(s.active.Some? || s.ui || s.profile.None? || !s.attached || s.waiting == []) && s.journal.pending > 0 {
      var oldest := Oldest(s.waiting, |s.waiting|);
      var permit := Permit(s.permits, s.profile.value, s.journal.pending, oldest.deadline, s.journal.sequence);
      CancelKeeps(s.(active := Some(permit), permits := s.permits + 1));
    }
  }

  lemma TimerKeeps(s: State, timer: nat, now: int, canLoad: bool)
    requires Inv(s)
    ensures Inv(TimerFires(s, timer, now, canLoad)) && TimerFires(s, timer, now, canLoad).journal == s.journal
  {
    var s1 := if s.active.Some? && s.active.value.deadline <= now then Cancel(s) else s;
    CancelKeeps(s);
    var i := IndexOf(s1.waiting, timer, |s1.waiting|);
    StartKeeps(if i.Some? then FinishOne(s1, i.value) else s1, now, canLoad);
  }

  lemma {:induction false} AllFinishedOk(w: seq<Held>, n: nat)
    requires n <= |w|
    ensures forall i | 0 <= i < |AllFinished(w, n)| :: CallOk(AllFinished(w, n)[i])
  {
    if n > 0 {
      AllFinishedOk(w, n - 1);
    }
  }

  lemma UnregisterKeeps(s: State, fault: Fault)
    requires Inv(s)
    ensures Inv(Unregister(s, fault))
  {
    CancelKeeps(s);
    AllFinishedOk(Cancel(s).waiting, |Cancel(s).waiting|);
  }

  lemma AnswerKeeps(s: State, permit: nat, reply: Reply, now: int, fault: Fault)
    requires Inv(s)
    ensures Inv(Answered(s, permit, reply, now, fault))
  {
    if s.active.Some? && s.active.value.id == permit {
      var p := s.active.value;
      var durable := now < p.deadline && reply.wellFormed;
      var (j, ack) := if durable then Acknowledge(s.journal, p.generation, fault) else (s.journal, Threw);
      var report := if ack.Threw? then Failed else if reply.committed then NewData else NoData;
      FinishedOk(s.waiting, |s.waiting|, p.generation, report, ByRun(p));
    }
  }

  lemma WakeKeeps(s: State, e: Event)
    requires Inv(s) && e.Wake?
    ensures Inv(Next(s, e)) && Next(s, e).journal == Mark(s.journal, e.fault).0
  {
    var (j, generation) := Mark(s.journal, e.fault);
    if generation.Some? && !s.ui && e.engine && e.started + GRACE > e.now {
      StartKeeps(s.(journal := j, waiting := s.waiting + [Held(e.id, generation.value, e.started + GRACE)]), e.now, e.canLoad);
    }
  }

  lemma StepKeeps(s: State, e: Event)
    requires Inv(s)
    ensures Inv(Next(s, e))
  {
    match e
    case Wake(_, _, _, _, _, _) => WakeKeeps(s, e);
    case Timer(timer, now, canLoad) => TimerKeeps(s, timer, now, canLoad);
    case Response(permit, reply, now, fault) => AnswerKeeps(s, permit, reply, now, fault);
    case Retry(now, canLoad) => StartKeeps(s, now, canLoad);
    case Ui(attached) => CancelKeeps(s.(ui := attached));
    case Bound(profile, now, fault, canLoad) =>
      StartKeeps(s.(journal := Bind(s.journal, Some(profile), fault).0, profile := Some(profile)), now, canLoad);
    case Unbound(fault) => UnregisterKeeps(s, fault);
    case Attach =>
  }

  lemma {:induction false} RunKeeps(j: Journal, es: seq<Event>)
    requires Sound(j)
    ensures Inv(Exec(j, es))
  {
    if es != [] {
      RunKeeps(j, es[..|es| - 1]);
      StepKeeps(Exec(j, es[..|es| - 1]), es[|es| - 1]);
    }
  }

  /** A run reports success only for wakes already marked when it started. */
  lemma SuccessIsForEarlierWakes(j: Journal, es: seq<Event>, i: nat)
    requires Sound(j) && i < |Exec(j, es).calls|
    requires Exec(j, es).calls[i].cause.ByRun? && Exec(j, es).calls[i].report != Failed
    ensures Exec(j, es).calls[i].generation <= Exec(j, es).calls[i].cause.permit.marked
  {
    RunKeeps(j, es);
    assert CallOk(Exec(j, es).calls[i]);
  }

  /** The step may settle wake g: it acknowledges its own or a later
      generation, or unbinds the profile. */
  predicate MaySettle(s: State, e: Event, g: int) {
    e.Unbound? || (e.Response? && s.active.Some? && s.active.value.generation >= g)
  }

  lemma StepKeepsPending(s: State, e: Event, g: int)
    requires Inv(s) && 0 < g <= s.journal.pending && !MaySettle(s, e, g)
    ensures Next(s, e).journal.pending >= g
  {
    match e
    case Wake(_, _, _, _, _, _) => WakeKeeps(s, e);
    case Timer(timer, now, canLoad) => TimerKeeps(s, timer, now, canLoad);
    case Response(permit, reply, now, fault) =>
    case Retry(now, canLoad) => StartKeeps(s, now, canLoad);
    case Ui(attached) => CancelKeeps(s.(ui := attached));
    case Bound(profile, now, fault, canLoad) =>
      StartKeeps(s.(journal := Bind(s.journal, Some(profile), fault).0, profile := Some(profile)), now, canLoad);
    case Unbound(fault) =>
    case Attach =>
  }

  /** A wake marked during a run, or at any time, stays pending until a run of
      its own or a later generation is answered or the profile is unbound. */
  lemma {:induction false} PendingOutlivesOlderRuns(j: Journal, es: seq<Event>, k: nat, g: int)
    requires Sound(j) && k <= |es| && 0 < g <= Exec(j, es[..k]).journal.pending
    requires forall i | k <= i < |es| :: !MaySettle(Exec(j, es[..i]), es[i], g)
    ensures Exec(j, es).journal.pending >= g
  {
    if k == |es| {
      assert es[..k] == es;
    } else {
      var front := es[..|es| - 1];
      assert front[..k] == es[..k];
      assert forall i | k <= i < |front| :: front[..i] == es[..i];
      PendingOutlivesOlderRuns(j, front, k, g);
      RunKeeps(j, front);
      StepKeepsPending(Exec(j, front), es[|es| - 1], g);
    }
  }
}
