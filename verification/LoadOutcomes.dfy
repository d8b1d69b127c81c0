/**
 What a delivery's sample says. Its fate is read off the events alone, without
 tables, handles or jobs, and in every interleaving the recorder's one sample of
 the delivery agrees with it.
 */
module LoadOutcomes {
  import opened LoadAccounting
  import opened LoadProofs

  /** How a delivery stands: its send not registered, registered and not answered
      (with the delivery seen or not), awaited, decided, or its send failed. */
  datatype Fate = Unsent | Waiting(seen: bool) | Pending | Ruled(result: Result) | Dropped

  /** What one event does to the delivery of send id, begun at start, to client c.
      Only the first word counts: a client that sees an awaited message makes it
      good, a sweep past its start makes it missed, the drain unfinished. */
  function Turn(f: Fate, e: Event, id: Id, c: Slot, start: int): Fate {
    match f
    case Unsent => if e == Register(id) then Waiting(false) else f
    case Waiting(seen) =>
      if e == See(id, c) then Waiting(true)
      else if e == Answer(id, false) then Dropped
      else if e == Answer(id, true) then (if seen then Ruled(Good) else Pending)
      else f
    case Pending =>
      if e == See(id, c) then Ruled(Good)
      else if e.Sweep? && start < e.cutoff then Ruled(Missed)
      else if e.Drain? then Ruled(Unfinished)
      else f
    case _ => f
  }

  function FateOf(es: seq<Event>, id: Id, c: Slot, start: int): Fate {
    if es == [] then Unsent else Turn(FateOf(es[..|es| - 1], id, c, start), es[|es| - 1], id, c, start)
  }

  // The table and the jobs agree with the fate

  predicate TableTells(w: World, id: Id, c: Slot, f: Fate)
    requires id in w.sends
  {
    match f
    case Unsent => id !in w.table && !w.sends[id].Acked()
    case Waiting(seen) => id in w.table && !w.table[id].acked && (c in w.table[id].early <==> seen)
    case Pending => id in w.table && w.table[id].acked && c in w.table[id].handles
    case Ruled(_) => w.sends[id].Acked() && (id in w.table ==> w.table[id].acked && c !in w.table[id].handles)
    case Dropped => id !in w.table && (w.sends[id].phase == Answered(false) || w.sends[id].phase == Over(false))
  }

  predicate JobTells(j: Job, f: Fate) {
    match j
    case Open(_, seen) => f == if seen then Ruled(Good) else Pending
    case Close(_, result) => f == Ruled(result)
  }

  predicate Tells(w: World, id: Id, c: Slot, f: Fate)
    requires id in w.sends
  {
    TableTells(w, id, c, f) && forall j | j in w.jobs && j.h == Del(id, c, w.sends[id].start) :: JobTells(j, f)
  }

  lemma AnswerTells(w: World, id: Id, ok: bool, c: Slot, f: Fate)
    requires Inv(w) && Legal(w, Answer(id, ok)) && c in w.sends[id].expected && Tells(w, id, c, f)
    ensures Tells(Next(w, Answer(id, ok)), id, c, Turn(f, Answer(id, ok), id, c, w.sends[id].start))
  {
    assert SendOk(w, id) && EntryOk(w, id);
    var s := w.table[id];
    assert c !in s.early ==> c in s.expected - s.early;
  }

  lemma OtherAnswer(w: World, x: Id, ok: bool, id: Id, c: Slot, f: Fate)
    requires Legal(w, Answer(x, ok)) && x != id && id in w.sends && Tells(w, id, c, f)
    ensures Tells(Next(w, Answer(x, ok)), id, c, f)
  {
  }

  lemma SeeTells(w: World, x: Id, d: Slot, id: Id, c: Slot, f: Fate)
    requires Inv(w) && Legal(w, See(x, d)) && id in w.sends && c in w.sends[id].expected && Tells(w, id, c, f)
    ensures Tells(Next(w, See(x, d)), id, c, Turn(f, See(x, d), id, c, w.sends[id].start))
  {
    if id in w.table {
      assert EntryOk(w, id);
      assert c != d && c in w.table[id].handles ==> c in w.table[id].handles - {d};
    }
  }

  lemma SweepTells(w: World, cutoff: int, id: Id, c: Slot, f: Fate)
    requires Inv(w) && Legal(w, Sweep(cutoff)) && id in w.sends && c in w.sends[id].expected && Tells(w, id, c, f)
    ensures Tells(Next(w, Sweep(cutoff)), id, c, Turn(f, Sweep(cutoff), id, c, w.sends[id].start))
  {
    if id in w.table {
      assert EntryOk(w, id);
    }
  }

  lemma DrainTells(w: World, id: Id, c: Slot, f: Fate)
    requires Inv(w) && Legal(w, Drain) && id in w.sends && c in w.sends[id].expected && Tells(w, id, c, f)
    ensures Tells(Next(w, Drain), id, c, Turn(f, Drain, id, c, w.sends[id].start))
  {
    if id in w.table {
      assert EntryOk(w, id);
    }
  }

  lemma WorkTells(w: World, job: Job, id: Id, c: Slot, f: Fate)
    requires Inv(w) && job in w.jobs && id in w.sends && Tells(w, id, c, f)
    ensures Tells(Next(w, Work(job)), id, c, f)
  {
  }

  lemma SendTells(w: World, e: Event, id: Id, c: Slot, f: Fate)
    requires Inv(w) && Legal(w, e) && (e.BeginSend? || e.Register? || e.EndSend? || e.Force?)
    requires id in w.sends && c in w.sends[id].expected && Tells(w, id, c, f)
    ensures Tells(Next(w, e), id, c, Turn(f, e, id, c, w.sends[id].start))
  {
  }

  lemma StepTells(w: World, e: Event, id: Id, c: Slot, f: Fate)
    requires Inv(w) && Legal(w, e) && id in w.sends && c in w.sends[id].expected && Tells(w, id, c, f)
    ensures Tells(Next(w, e), id, c, Turn(f, e, id, c, w.sends[id].start))
  {
    match e
    case Answer(x, ok) =>
      if x == id {
        AnswerTells(w, id, ok, c, f);
      } else {
        OtherAnswer(w, x, ok, id, c, f);
      }
    case See(x, d) => SeeTells(w, x, d, id, c, f);
    case Sweep(cutoff) => SweepTells(w, cutoff, id, c, f);
    case Drain => DrainTells(w, id, c, f);
    case Work(job) => WorkTells(w, job, id, c, f);
    case _ => SendTells(w, e, id, c, f);
  }

  /** A send that has not begun has left no trace. */
  lemma NoTrace(w: World, id: Id, c: Slot, start: int)
    requires Inv(w) && id !in w.sends
    ensures id !in w.table && !Known(w.rec, Del(id, c, start)) && forall j | j in w.jobs :: j.h.id != id
  {
    assert id in w.table ==> EntryOk(w, id);
    assert Known(w.rec, Del(id, c, start)) ==> HandleOk(w, Del(id, c, start));
    forall j | j in w.jobs ensures j.h.id != id {
      assert JobOk(w, j);
    }
  }

  lemma {:induction false} RunTells(es: seq<Event>, id: Id, c: Slot, start: int)
    requires LegalRun(es)
    ensures id !in Exec(es).sends ==> FateOf(es, id, c, start) == Unsent
    ensures id in Exec(es).sends && start == Exec(es).sends[id].start && c in Exec(es).sends[id].expected ==>
              Tells(Exec(es), id, c, FateOf(es, id, c, start))
  {
    if es != [] {
      var front, e := es[..|es| - 1], es[|es| - 1];
      var w := Exec(front);
      RunTells(front, id, c, start);
      RunKeeps(front);
      if id !in w.sends {
        NoTrace(w, id, c, start);
      } else if start == w.sends[id].start && c in w.sends[id].expected {
        StepTells(w, e, id, c, FateOf(front, id, c, start));
      }
    }
  }

  // The sample agrees with the fate

  /** A settle gave up on operations begun at start. */
  ghost predicate Forced(es: seq<Event>, start: int) { exists i | 0 <= i < |es| :: es[i].Force? && start < es[i].to }

  predicate Explained(s: Sample, f: Fate, forced: bool) { f == Ruled(s.result) || (forced && s.result == Unfinished) }

  lemma {:induction false} ForcedUnfinished(r: Rec, hs: seq<Handle>, n: nat, s: Sample)
    requires n <= |hs| && s in ForceAll(r, hs, n).samples
    ensures s in r.samples || (s.result == Unfinished && s.handle in hs[..n])
  {
    if n > 0 && s in ForceAll(r, hs, n - 1).samples {
      ForcedUnfinished(r, hs, n - 1, s);
    }
  }

  /** Where a step's new sample comes from. */
  lemma NewSample(w: World, e: Event, s: Sample)
    requires Legal(w, e) && s in Next(w, e).rec.samples && s.handle.kind.Delivery?
    ensures || s in w.rec.samples
            || e == Work(Close(s.handle, s.result))
            || (e.Force? && s.result == Unfinished && s.handle.at < e.to)
  {
    if e.Force? {
      ForcedUnfinished(w.rec, e.order, |e.order|, s);
    }
  }

  lemma {:induction false} SampleTells(es: seq<Event>, id: Id, c: Slot, s: Sample)
    requires LegalRun(es) && id in Exec(es).sends && c in Exec(es).sends[id].expected
    requires s in Exec(es).rec.samples && s.handle == Del(id, c, Exec(es).sends[id].start)
    ensures Explained(s, FateOf(es, id, c, s.handle.at), Forced(es, s.handle.at))
  {
    var front, e := es[..|es| - 1], es[|es| - 1];
    var w, start := Exec(front), s.handle.at;
    RunKeeps(front);
    NewSample(w, e, s);
    if id !in w.sends {
      NoTrace(w, id, c, start);
    } else if s in w.rec.samples {
      SampleTells(front, id, c, s);
      if Forced(front, start) {
        var i :| 0 <= i < |front| && front[i].Force? && start < front[i].to;
        assert es[i] == front[i];
      }
    } else {
      RunTells(front, id, c, start);
    }
  }

  /** The recorder's word for a delivery: once the tracker's work on its send is
      done, and as long as no settle gave it up, its sample has result r exactly
      when r is its fate, and it is live exactly when it is still awaited. */
  lemma FateIsRecorded(es: seq<Event>, id: Id, c: Slot, r: Result)
    requires LegalRun(es) && id in Exec(es).sends && c in Exec(es).sends[id].expected && !Busy(Exec(es), id)
    requires !Forced(es, Exec(es).sends[id].start)
    ensures
      var w := Exec(es);
      var h := Del(id, c, w.sends[id].start);
      && (Sample(h, r) in w.rec.samples <==> FateOf(es, id, c, w.sends[id].start) == Ruled(r))
      && (h in w.rec.live <==> FateOf(es, id, c, w.sends[id].start) == Pending)
  {
    var w := Exec(es);
    var start := w.sends[id].start;
    var h := Del(id, c, start);
    RunKeeps(es);
    RunTells(es, id, c, start);
    ExactlyOneSample(es, id, c);
    TimesIs(w.rec, h);
    forall k | 0 <= k < |w.rec.samples| && w.rec.samples[k].handle == h
      ensures FateOf(es, id, c, start) == Ruled(w.rec.samples[k].result)
    {
      SampleTells(es, id, c, w.rec.samples[k]);
    }
    assert h in w.rec.live ==> Awaited(w, h);
    if id in w.table {
      assert EntryOk(w, id);
    }
    if h in Ended(w.rec) {
      var k :| 0 <= k < |w.rec.samples| && w.rec.samples[k].handle == h;
      assert w.rec.samples[k] in w.rec.samples;
    }
  }

  /** In every run, a delivery's sample is its fate or, after a settle that gave
      up on its send, unfinished. */
  lemma SampleSaysWhy(es: seq<Event>, s: Sample)
    requires LegalRun(es) && s in Exec(es).rec.samples && s.handle.kind.Delivery?
    ensures Explained(s, FateOf(es, s.handle.id, s.handle.kind.slot, s.handle.at), Forced(es, s.handle.at))
  {
    RunKeeps(es);
    var w := Exec(es);
    var k :| 0 <= k < |w.rec.samples| && w.rec.samples[k] == s;
    assert s.handle in Ended(w.rec) && Known(w.rec, s.handle) && HandleOk(w, s.handle);
    SampleTells(es, s.handle.id, s.handle.kind.slot, s);
  }
}
