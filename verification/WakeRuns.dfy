/**
 The coordinator's runs: when one must be active and when none may be, that a
 revoked permit never returns, that a run ends in time for every callback it
 serves, and why each callback was told what it was told.
 */
module WakeRuns {
  import opened WakeJournal
  import opened WakeCoordinator
  import opened WakeProofs

  // Lists of callbacks

  lemma {:induction false} LeftIs(w: seq<Held>, n: nat, g: int, h: Held)
    requires n <= |w|
    ensures h in Left(w, n, g) <==> h in w[..n] && h.generation > g
  {
    if n > 0 {
      LeftIs(w, n - 1, g, h);
      assert w[..n] == w[..n - 1] + [w[n - 1]];
    }
  }

  lemma {:induction false} NoneLeft(w: seq<Held>, n: nat, g: int)
    requires n <= |w| && forall h | h in w :: h.generation <= g
    ensures Left(w, n, g) == []
  {
    if n > 0 {
      NoneLeft(w, n - 1, g);
    }
  }

  lemma {:induction false} FinishedIs(w: seq<Held>, n: nat, g: int, report: Report, cause: Cause, c: Call)
    requires n <= |w| && c in Finished(w, n, g, report, cause)
    ensures c.generation <= g && c.report == report && c.cause == cause
  {
    if n > 0 && c in Finished(w, n - 1, g, report, cause) {
      FinishedIs(w, n - 1, g, report, cause, c);
    }
  }

  lemma {:induction false} AllFinishedIs(w: seq<Held>, n: nat, c: Call)
    requires n <= |w| && c in AllFinished(w, n)
    ensures c.report == Failed && c.cause == ByOther
  {
    if n > 0 && c in AllFinished(w, n - 1) {
      AllFinishedIs(w, n - 1, c);
    }
  }

  lemma {:induction false} OldestIs(w: seq<Held>, n: nat)
    requires 0 < n <= |w|
    ensures Oldest(w, n) in w[..n] && forall i | 0 <= i < n :: Oldest(w, n).deadline <= w[i].deadline
  {
    if n > 1 {
      OldestIs(w, n - 1);
      assert w[..n] == w[..n - 1] + [w[n - 1]];
    }
  }

  // What every step keeps

  /** A run leaves time for a callback it serves, and every callback's wake has
      been marked. */
  predicate HeldOk(s: State, h: Held) {
    && h.generation <= s.journal.sequence
    && (s.active.Some? && h.generation <= s.active.value.generation ==> s.active.value.deadline <= h.deadline)
  }

  ghost predicate Timely(s: State) {
    && Inv(s)
    && (forall h | h in s.waiting :: HeldOk(s, h))
    && (s.active.Some? ==> && s.active.value.id < s.permits
                           && !s.ui && s.attached && s.profile == Some(s.active.value.profile))
  }

  lemma FinishUpToTimely(s: State, g: int, report: Report, cause: Cause)
    requires forall h | h in s.waiting :: HeldOk(s, h)
    ensures forall h | h in FinishUpTo(s, g, report, cause).waiting :: h in s.waiting && h.generation > g && HeldOk(s, h)
  {
    forall h | h in FinishUpTo(s, g, report, cause).waiting ensures h in s.waiting && h.generation > g {
      LeftIs(s.waiting, |s.waiting|, g, h);
      assert s.waiting[..|s.waiting|] == s.waiting;
    }
  }

  lemma CancelTimely(s: State)
    requires Timely(s)
    ensures Timely(Cancel(s)) && Cancel(s).active.None? && Cancel(s).permits == s.permits && Cancel(s).journal == s.journal
    ensures forall h | h in Cancel(s).waiting :: h in s.waiting && (s.active.Some? ==> h.generation > s.active.value.generation)
  {
    CancelKeeps(s);
    if s.active.Some? {
      FinishUpToTimely(s, s.active.value.generation, Failed, ByOther);
    }
  }

  /** The state in which a run has just been started. */
  function Started(s: State): State
    requires s.profile.Some? && s.waiting != []
  {
    s.(active := Some(Permit(s.permits, s.profile.value, s.journal.pending, Oldest(s.waiting, |s.waiting|).deadline,
                             s.journal.sequence)),
       permits := s.permits + 1)
  }

  lemma StartedTimely(s: State)
    requires Timely(s) && s.profile.Some? && s.waiting != [] && s.journal.pending > 0 && !s.ui && s.attached
    ensures Timely(Started(s)) && forall h | h in s.waiting :: h.generation <= s.journal.pending
  {
    OldestIs(s.waiting, |s.waiting|);
    forall h | h in s.waiting ensures HeldOk(Started(s), h) && h.generation <= s.journal.pending {
      assert HeldOk(s, h);
      var i :| 0 <= i < |s.waiting| && s.waiting[i] == h;
    }
  }

  /** Nothing is running although something could be. */
  predicate Idle(s: State, now: int) {
    && s.active.None? && !s.ui && s.profile.Some? && s.attached && s.journal.pending > 0 && s.waiting != []
    && forall h | h in s.waiting :: h.deadline > now
  }

  /** Looking for work starts a run whenever one can: with storage that loads, the
      coordinator is never left idle. */
  lemma StartTimely(s: State, now: int, canLoad: bool)
    requires Timely(s)
    ensures var t := StartNext(s, now, canLoad);
      && Timely(t) && t.permits >= s.permits && t.journal == s.journal
      && (t.active == s.active || t.active.None? || t.active.value.id >= s.permits)
      && (t.active != s.active && t.active.Some? ==> t.active.value.deadline > now)
      && (canLoad ==> !Idle(t, now))
  {
    if !(s.active.Some? || s.ui || s.profile.None? || !s.attached || s.waiting == []) {
      OldestIs(s.waiting, |s.waiting|);
      assert s.waiting[..|s.waiting|] == s.waiting;
      var oldest := Oldest(s.waiting, |s.waiting|);
      if oldest.deadline > now && canLoad && s.journal.pending > 0 {
        StartedTimely(s);
        CancelTimely(Started(s));
        var t := Cancel(Started(s));
        assert StartNext(s, now, canLoad) == if (oldest.deadline - now) / 1000 <= 0 then t else Started(s);
        NoneLeft(s.waiting, |s.waiting|, s.journal.pending);
      }
    }
  }

  lemma FinishOneTimely(s: State, i: nat)
    requires Timely(s) && i < |s.waiting|
    ensures Timely(FinishOne(s, i))
  {
    var t := FinishOne(s, i);
    forall h | h in t.waiting ensures HeldOk(t, h) {
      assert h in s.waiting && HeldOk(s, h);
    }
    forall k | 0 <= k < |t.calls| ensures CallOk(t.calls[k]) {
      assert k < |s.calls| ==> t.calls[k] == s.calls[k];
    }
  }

  lemma TimerTimely(s: State, timer: nat, now: int, canLoad: bool)
    requires Timely(s)
    ensures var t := TimerFires(s, timer, now, canLoad);
      && Timely(t) && t.permits >= s.permits
      && (t.active == s.active || t.active.None? || t.active.value.id >= s.permits)
      && (HeldCount(s.waiting, timer) > 0 ==> && (t.active.Some? ==> t.active.value.deadline > now)
                                               && (canLoad ==> !Idle(t, now)))
  {
    if IndexOf(s.waiting, timer, |s.waiting|).None? {
      NotHeld(s.waiting, timer);
    } else {
      var s1 := if s.active.Some? && s.active.value.deadline <= now then Cancel(s) else s;
      CancelTimely(s);
      var i := IndexOf(s1.waiting, timer, |s1.waiting|);
      if i.Some? {
        FinishOneTimely(s1, i.value);
      }
      StartTimely(if i.Some? then FinishOne(s1, i.value) else s1, now, canLoad);
    }
  }

  lemma AnswerTimely(s: State, permit: nat, reply: Reply, now: int, fault: Fault)
    requires Timely(s)
    ensures Timely(Answered(s, permit, reply, now, fault))
  {
    AnswerKeeps(s, permit, reply, now, fault);
    if s.active.Some? && s.active.value.id == permit {
      var p := s.active.value;
      var t := Answered(s, permit, reply, now, fault);
      assert t.waiting == FinishUpTo(s, p.generation, Failed, ByOther).waiting;
      FinishUpToTimely(s, p.generation, Failed, ByOther);
    }
  }

  lemma WakeTimely(s: State, e: Event)
    requires Timely(s) && e.Wake?
    ensures var t := Next(s, e);
      && Timely(t) && t.permits >= s.permits
      && (t.active == s.active || t.active.None? || t.active.value.id >= s.permits)
  {
    var (j, generation) := Mark(s.journal, e.fault);
    WakeKeeps(s, e);
    if generation.Some? && !s.ui && e.engine && e.started + GRACE > e.now {
      var h := Held(e.id, generation.value, e.started + GRACE);
      var t := s.(journal := j, waiting := s.waiting + [h]);
      forall x | x in t.waiting ensures HeldOk(t, x) {
        assert x == h || HeldOk(s, x);
      }
      StartTimely(t, e.now, e.canLoad);
    }
  }

  lemma UiTimely(s: State, attached: bool)
    requires Timely(s)
    ensures Timely(UiAttached(s, attached))
    ensures attached ==> UiAttached(s, attached).active.None?
    ensures !attached ==> UiAttached(s, attached).active == s.active && UiAttached(s, attached).waiting == s.waiting
  {
    CancelTimely(s);
    assert attached ==> UiAttached(s, attached) == Cancel(s).(ui := true);
    forall h | h in UiAttached(s, attached).waiting ensures HeldOk(UiAttached(s, attached), h) {
      assert HeldOk(if attached then Cancel(s) else s, h);
    }
  }

  /** Another profile's install changes nothing; one's own binds it when the save
      is clean, and looks for work. */
  lemma BoundTimely(s: State, profile: string, now: int, fault: Fault, canLoad: bool)
    requires Timely(s)
    ensures var t := Install(s, profile, now, fault, canLoad);
      && Timely(t) && t.permits >= s.permits
      && (t.active == s.active || t.active.None? || t.active.value.id >= s.permits)
      && (if s.profile.Some? && s.profile.value != profile then t == s
          else if fault.Fine? then && t.profile == Some(profile) && t.journal.profile == Some(profile)
                                   && (canLoad ==> !Idle(t, now))
          else t.profile == s.profile)
  {
    if !(s.profile.Some? && s.profile.value != profile) {
      var t := s.(journal := Bind(s.journal, Some(profile), fault).0, profile := Some(profile));
      forall h | h in t.waiting ensures HeldOk(t, h) {
        assert HeldOk(s, h);
      }
      StartTimely(t, now, canLoad);
      StartKeepsProfile(t, now, canLoad);
    }
  }

  lemma StartKeepsProfile(s: State, now: int, canLoad: bool)
    ensures StartNext(s, now, canLoad).profile == s.profile
  {
  }

  lemma StepTimely(s: State, e: Event)
    requires Timely(s)
    ensures var t := Next(s, e);
      && Timely(t) && t.permits >= s.permits
      && (t.active == s.active || t.active.None? || t.active.value.id >= s.permits)
  {
    match e
    case Wake(_, _, _, _, _, _) => WakeTimely(s, e);
    case Timer(timer, now, canLoad) => TimerTimely(s, timer, now, canLoad);
    case Response(permit, reply, now, fault) => AnswerTimely(s, permit, reply, now, fault);
    case Retry(now, canLoad) => StartTimely(s, now, canLoad);
    case Ui(attached) => UiTimely(s, attached);
    case Bound(profile, now, fault, canLoad) => BoundTimely(s, profile, now, fault, canLoad);
    case Unbound(fault) =>
      CancelTimely(s);
      UnregisterKeeps(s, fault);
    case Attach =>
  }

  lemma {:induction false} RunTimely(j: Journal, es: seq<Event>)
    requires Sound(j)
    ensures Timely(Exec(j, es))
  {
    if es != [] {
      RunTimely(j, es[..|es| - 1]);
      StepTimely(Exec(j, es[..|es| - 1]), es[|es| - 1]);
    }
  }

  // What is promised

  /** A run's deadline is no later than that of any callback it serves. */
  lemma RunEndsInTime(j: Journal, es: seq<Event>, h: Held)
    requires Sound(j) && h in Exec(j, es).waiting && Exec(j, es).active.Some?
    requires h.generation <= Exec(j, es).active.value.generation
    ensures Exec(j, es).active.value.deadline <= h.deadline
  {
    RunTimely(j, es);
    assert HeldOk(Exec(j, es), h);
  }

  /** A permit that has been given out and is not active never is again, so its
      late replies change nothing. */
  lemma {:induction false} RevokedForever(j: Journal, es: seq<Event>, k: nat, permit: nat)
    requires Sound(j) && k <= |es| && permit < Exec(j, es[..k]).permits
    requires !(Exec(j, es[..k]).active.Some? && Exec(j, es[..k]).active.value.id == permit)
    ensures var s := Exec(j, es);
      && permit < s.permits && !(s.active.Some? && s.active.value.id == permit)
      && forall reply, now, fault :: Next(s, Response(permit, reply, now, fault)) == s
  {
    if k == |es| {
      assert es[..k] == es;
    } else {
      var front := es[..|es| - 1];
      assert front[..k] == es[..k];
      RevokedForever(j, front, k, permit);
      RunTimely(j, front);
      StepTimely(Exec(j, front), es[|es| - 1]);
    }
  }

  /** A run is for the bound profile, with no screen attached. */
  lemma RunIsForTheProfile(j: Journal, es: seq<Event>)
    requires Sound(j) && Exec(j, es).active.Some?
    ensures Exec(j, es).profile == Some(Exec(j, es).active.value.profile) && Exec(j, es).attached && !Exec(j, es).ui
  {
    RunTimely(j, es);
  }

  /** No run is active once the screen is attached or the profile is unbound, and
      none is overdue once a waiting callback's timer has run. */
  lemma RunsAreStopped(j: Journal, es: seq<Event>, timer: nat, now: int, canLoad: bool, fault: Fault)
    requires Sound(j)
    ensures var s := Exec(j, es);
      && Next(s, Ui(true)).active.None?
      && Next(s, Unbound(fault)).active.None? && Next(s, Unbound(fault)).waiting == []
      && (HeldCount(s.waiting, timer) > 0 && Next(s, Timer(timer, now, canLoad)).active.Some? ==>
            Next(s, Timer(timer, now, canLoad)).active.value.deadline > now)
  {
    RunTimely(j, es);
    UiTimely(Exec(j, es), true);
    TimerTimely(Exec(j, es), timer, now, canLoad);
  }

  /** A run's reply, good or bad, ends it and every callback it served. */
  lemma ReplyEndsRun(j: Journal, es: seq<Event>, reply: Reply, now: int, fault: Fault, h: Held)
    requires Sound(j) && Exec(j, es).active.Some?
    ensures var s := Exec(j, es);
      var t := Next(s, Response(s.active.value.id, reply, now, fault));
      t.active.None? && (h in t.waiting <==> h in s.waiting && h.generation > s.active.value.generation)
  {
    var s := Exec(j, es);
    LeftIs(s.waiting, |s.waiting|, s.active.value.generation, h);
    assert s.waiting[..|s.waiting|] == s.waiting;
  }

  /** After a retry, a waiting callback's timer or an install, with storage that
      loads, the coordinator is not idle; and an install binds the profile unless
      another one is bound, which it leaves alone. */
  lemma NeverLeftIdle(j: Journal, es: seq<Event>, timer: nat, profile: string, now: int)
    requires Sound(j)
    ensures var s := Exec(j, es);
      && !Idle(Next(s, Retry(now, true)), now)
      && (HeldCount(s.waiting, timer) > 0 ==> !Idle(Next(s, Timer(timer, now, true)), now))
      && var t := Next(s, Bound(profile, now, Fine, true));
         if s.profile.Some? && s.profile.value != profile then t == s else t.profile == Some(profile) && !Idle(t, now)
  {
    RunTimely(j, es);
    StartTimely(Exec(j, es), now, true);
    TimerTimely(Exec(j, es), timer, now, true);
    BoundTimely(Exec(j, es), profile, now, Fine, true);
  }

  // Why a callback was told what it was told

  /** The run serving generation g answered well, in time, and its wake is
      acknowledged or was no longer pending. */
  predicate Durable(s: State, e: Event, g: int) {
    && e.Response? && s.active.Some? && e.permit == s.active.value.id && g <= s.active.value.generation
    && e.now < s.active.value.deadline && e.reply.wellFormed
    && (e.fault.Fine? || (!e.fault.CannotLoad? && s.journal.pending != s.active.value.generation))
  }

  predicate Near(deadline: int, now: int) { now < deadline < now + 1000 }

  /** A deadline so near that a run gets no whole millisecond. */
  predicate Rushed(s: State, e: Event) {
    && (e.Wake? || e.Timer? || e.Retry? || e.Bound?)
    && ((exists h | h in s.waiting :: Near(h.deadline, e.now)) || (e.Wake? && Near(e.started + GRACE, e.now)))
  }

  /** A run that serves generation g is ended from outside. */
  predicate Interrupted(s: State, e: Event, g: int) {
    && s.active.Some? && g <= s.active.value.generation
    && (e == Ui(true) || (e.Timer? && s.active.value.deadline <= e.now))
  }

  predicate Justified(s: State, e: Event, c: Call) {
    match c.report
    case NewData => Durable(s, e, c.generation) && e.reply.committed
    case NoData => (Durable(s, e, c.generation) && !e.reply.committed) || (e.Wake? && e.id == c.id && s.ui)
    case Failed =>
      || (e.Wake? && e.id == c.id
          && (!e.fault.Fine? || s.journal.sequence >= MAX_SEQUENCE || !e.engine || e.started + GRACE <= e.now))
      || e.Unbound? || (e.Timer? && e.id == c.id)
      || Interrupted(s, e, c.generation) || Rushed(s, e)
      || (e.Response? && s.active.Some? && e.permit == s.active.value.id && c.generation <= s.active.value.generation
          && !Durable(s, e, c.generation))
  }

  lemma CancelCalls(s: State, c: Call)
    requires c in Cancel(s).calls && c !in s.calls
    ensures c.report == Failed && s.active.Some? && c.generation <= s.active.value.generation
  {
    FinishedIs(s.waiting, |s.waiting|, s.active.value.generation, Failed, ByOther, c);
  }

  lemma CancelShrinks(s: State, h: Held)
    requires h in Cancel(s).waiting
    ensures h in s.waiting
  {
    if s.active.Some? {
      LeftIs(s.waiting, |s.waiting|, s.active.value.generation, h);
      assert s.waiting[..|s.waiting|] == s.waiting;
    }
  }

  lemma StartCalls(s: State, now: int, canLoad: bool, c: Call)
    requires c in StartNext(s, now, canLoad).calls && c !in s.calls
    ensures c.report == Failed && exists h | h in s.waiting :: Near(h.deadline, now)
  {
    var oldest := Oldest(s.waiting, |s.waiting|);
    OldestIs(s.waiting, |s.waiting|);
    assert s.waiting[..|s.waiting|] == s.waiting;
    assert Near(oldest.deadline, now);
    CancelCalls(Started(s), c);
  }

  lemma TimerCalls(s: State, e: Event, c: Call)
    requires e.Timer? && c in Next(s, e).calls && c !in s.calls
    ensures Justified(s, e, c)
  {
    var cut := s.active.Some? && s.active.value.deadline <= e.now;
    var s1 := if cut then Cancel(s) else s;
    if c in s1.calls {
      CancelCalls(s, c);
    } else {
      var i := IndexOf(s1.waiting, e.id, |s1.waiting|);
      var s2 := if i.Some? then FinishOne(s1, i.value) else s1;
      if c !in s2.calls {
        StartCalls(s2, e.now, e.canLoad, c);
        var h :| h in s2.waiting && Near(h.deadline, e.now);
        assert h in s1.waiting;
        if cut {
          CancelShrinks(s, h);
        }
      }
    }
  }

  lemma AnswerCalls(s: State, e: Event, c: Call)
    requires Inv(s) && e.Response? && c in Next(s, e).calls && c !in s.calls
    ensures Justified(s, e, c)
  {
    var p := s.active.value;
    var durable := e.now < p.deadline && e.reply.wellFormed;
    var ack := if durable then Acknowledge(s.journal, p.generation, e.fault).1 else Threw;
    var report := if ack.Threw? then Failed else if e.reply.committed then NewData else NoData;
    FinishedIs(s.waiting, |s.waiting|, p.generation, report, ByRun(p), c);
  }

  lemma WakeCalls(s: State, e: Event, c: Call)
    requires e.Wake? && c in Next(s, e).calls && c !in s.calls
    ensures Justified(s, e, c)
  {
    var (j, generation) := Mark(s.journal, e.fault);
    if generation.Some? && !s.ui && e.engine && e.started + GRACE > e.now {
      var t := s.(journal := j, waiting := s.waiting + [Held(e.id, generation.value, e.started + GRACE)]);
      StartCalls(t, e.now, e.canLoad, c);
    }
  }

  lemma StepCalls(s: State, e: Event, c: Call)
    requires Inv(s) && c in Next(s, e).calls && c !in s.calls
    ensures Justified(s, e, c)
  {
    match e
    case Wake(_, _, _, _, _, _) => WakeCalls(s, e, c);
    case Timer(_, _, _) => TimerCalls(s, e, c);
    case Response(_, _, _, _) => AnswerCalls(s, e, c);
    case Retry(now, canLoad) => StartCalls(s, now, canLoad, c);
    case Ui(attached) => CancelCalls(s.(ui := attached), c);
    case Bound(profile, now, fault, canLoad) =>
      StartCalls(s.(journal := Bind(s.journal, Some(profile), fault).0, profile := Some(profile)), now, canLoad, c);
    case Unbound(fault) =>
      if c in Cancel(s).calls {
        CancelCalls(s, c);
      } else {
        AllFinishedIs(Cancel(s).waiting, |Cancel(s).waiting|, c);
      }
    case Attach =>
  }

  /** After a good reply nothing up to the run's generation is pending. */
  lemma DurableSettles(s: State, e: Event, g: int)
    requires Inv(s) && Durable(s, e, g)
    ensures Next(s, e).journal.pending == 0 || Next(s, e).journal.pending > g
  {
  }

  predicate Fit(s: State, e: Event)
    requires e.Wake?
  {
    e.fault.Fine? && s.journal.sequence < MAX_SEQUENCE && !s.ui && e.engine && e.now < e.started + GRACE
  }

  lemma StaysUnlessNear(s: State, now: int, canLoad: bool)
    ensures StartNext(s, now, canLoad).waiting == s.waiting || exists h | h in s.waiting :: Near(h.deadline, now)
  {
    if s.waiting != [] {
      OldestIs(s.waiting, |s.waiting|);
      assert s.waiting[..|s.waiting|] == s.waiting;
      assert Oldest(s.waiting, |s.waiting|) in s.waiting;
    }
  }

  /** The state in which the wake has been marked and waits. */
  function Holding(s: State, e: Event): State
    requires e.Wake?
  {
    var g := s.journal.sequence + 1;
    s.(journal := s.journal.(sequence := g, pending := g), waiting := s.waiting + [Held(e.id, g, e.started + GRACE)])
  }

  lemma FitIsStarted(s: State, e: Event)
    requires e.Wake? && Fit(s, e)
    ensures Next(s, e) == StartNext(Holding(s, e), e.now, e.canLoad)
  {
  }

  lemma HoldingWaits(s: State, e: Event)
    requires e.Wake? && HeldCount(s.waiting, e.id) == 0
    ensures HeldCount(Holding(s, e).waiting, e.id) == 1
    ensures (exists h | h in Holding(s, e).waiting :: Near(h.deadline, e.now)) ==> Rushed(s, e)
  {
    OneMoreHeld(s.waiting, Held(e.id, s.journal.sequence + 1, e.started + GRACE), e.id);
  }

  lemma FitIsHeld(s: State, e: Event)
    requires e.Wake? && Fit(s, e) && HeldCount(s.waiting, e.id) == 0
    ensures HeldCount(Next(s, e).waiting, e.id) == 1 || Rushed(s, e)
  {
    FitIsStarted(s, e);
    HoldingWaits(s, e);
    StaysUnlessNear(Holding(s, e), e.now, e.canLoad);
  }

  /** A wake is held exactly when it could be marked, no screen is attached, the
      engine is there and there is time; it then waits, unless its deadline or
      another is too near for a run. */
  lemma HeldExactly(s: State, e: Event)
    requires e.Wake? && HeldCount(s.waiting, e.id) == 0
    ensures HeldCount(Next(s, e).waiting, e.id) > 0 ==> Fit(s, e)
    ensures Fit(s, e) ==> HeldCount(Next(s, e).waiting, e.id) == 1 || Rushed(s, e)
  {
    if Fit(s, e) {
      FitIsHeld(s, e);
    }
  }

  /** Event e, taken in s, is why c was called. */
  predicate Caused(s: State, e: Event, c: Call) {
    && Justified(s, e, c)
    && (e.Response? && c.report != Failed ==>
          Next(s, e).journal.pending == 0 || Next(s, e).journal.pending > c.generation)
  }

  lemma StepCauses(s: State, e: Event, c: Call)
    requires Inv(s) && c in Next(s, e).calls && c !in s.calls
    ensures Caused(s, e, c)
  {
    StepCalls(s, e, c);
    if Durable(s, e, c.generation) {
      DurableSettles(s, e, c.generation);
    }
  }

  /** Every callback was told what it was told for a reason: success only on a
      good, timely reply of the run that served it, whose wake is then no longer
      pending; no data also when the screen was attached; failure only when the
      wake could not be held, the run was ended or answered badly, the timer ran,
      or the profile was unbound. */
  lemma {:induction false} CallHasCause(j: Journal, es: seq<Event>, c: Call) returns (k: nat)
    requires Sound(j) && c in Exec(j, es).calls
    ensures k < |es| && Caused(Exec(j, es[..k]), es[k], c)
  {
    k := |es| - 1;
    var front := es[..k];
    if c in Exec(j, front).calls {
      k := CallHasCause(j, front, c);
      assert front[..k] == es[..k];
    } else {
      RunKeeps(j, front);
      StepCauses(Exec(j, front), es[k], c);
    }
  }
}
