/**
 What the load tool's accounting promises in every interleaving: every delivery
 of an acknowledged send is counted exactly once, none of a failed send is, and
 when a settle finds nothing live, exactly which deliveries may be missing.
 */
module LoadProofs {
  import opened LoadAccounting

  // The recorder

  ghost predicate RecOk(r: Rec) {
    && (forall i, j | 0 <= i < j < |r.samples| :: r.samples[i].handle != r.samples[j].handle)
    && (forall h | h in r.live :: h !in Ended(r))
  }

  /** Registered: live or sampled. */
  predicate Known(r: Rec, h: Handle) { h in r.live || h in Ended(r) }

  lemma EndKeeps(r: Rec, h: Handle, result: Result)
    requires RecOk(r)
    ensures var q := End(r, h, result);
      && RecOk(q) && q.live == r.live - {h}
      && Ended(q) == Ended(r) + (if h in r.live then {h} else {})
  {
    var q := End(r, h, result);
    if h in r.live {
      assert q.samples[|r.samples|].handle == h;
      forall i | 0 <= i < |r.samples| ensures q.samples[i].handle in Ended(r) && q.samples[i].handle in Ended(q) {
        assert q.samples[i] == r.samples[i];
      }
      forall x | x in Ended(q) ensures x in Ended(r) || x == h {
        var i :| 0 <= i < |q.samples| && q.samples[i].handle == x;
      }
      forall x | x in Ended(r) ensures x in Ended(q) {
        var i :| 0 <= i < |r.samples| && r.samples[i].handle == x;
        assert q.samples[i].handle == x;
      }
    }
  }

  lemma {:induction false} ForceKeeps(r: Rec, hs: seq<Handle>, n: nat)
    requires RecOk(r) && n <= |hs|
    ensures var q := ForceAll(r, hs, n);
      && RecOk(q) && q.live <= r.live
      && (forall h | h in r.live && h !in q.live :: h in hs[..n])
      && (forall h | h in hs[..n] :: h !in q.live)
      && (forall h :: Known(q, h) <==> Known(r, h))
      && (forall h | h in Ended(r) :: h in Ended(q))
  {
    if n > 0 {
      ForceKeeps(r, hs, n - 1);
      EndKeeps(ForceAll(r, hs, n - 1), hs[n - 1], Unfinished);
      assert hs[..n] == hs[..n - 1] + [hs[n - 1]];
    }
  }

  // What every step keeps

  /** A delivery awaited: by a table entry, or by a job about to end it. */
  predicate Awaited(w: World, h: Handle)
    requires h.kind.Delivery?
  {
    || (h.id in w.table && h.kind.slot in w.table[h.id].handles)
    || Close(h, Good) in w.jobs || Close(h, Missed) in w.jobs || Close(h, Unfinished) in w.jobs
  }

  /** A known handle belongs to a send, and a delivery to an acknowledged one. */
  predicate HandleOk(w: World, h: Handle) {
    && h.id in w.sends && h.at == w.sends[h.id].start
    && (h.kind.Delivery? ==> w.sends[h.id].Acked() && h.kind.slot in w.sends[h.id].expected)
  }

  predicate Opened(w: World, id: Id, c: Slot)
    requires id in w.sends
  {
    var h := Del(id, c, w.sends[id].start);
    Known(w.rec, h) || Open(h, true) in w.jobs || Open(h, false) in w.jobs
  }

  predicate SendOk(w: World, id: Id)
    requires id in w.sends
  {
    var s := w.sends[id];
    && Known(w.rec, OwnOf(w, id))
    && (s.phase.Over? ==> OwnOf(w, id) in Ended(w.rec))
    && (s.Acked() ==> forall c | c in s.expected :: Opened(w, id, c))
    && (s.phase.Registered? && s.expected != {} ==> id in w.table)
  }

  predicate EntryOk(w: World, id: Id)
    requires id in w.table
  {
    var t := w.table[id];
    && id in w.sends && t.started == w.sends[id].start && t.expected == w.sends[id].expected
    && t.handles <= t.expected
    && (if t.acked then w.sends[id].Acked() else w.sends[id].phase.Registered? && t.handles == {})
  }

  predicate JobOk(w: World, j: Job) {
    && j.h.kind.Delivery? && j.h.id in w.sends && j.h.at == w.sends[j.h.id].start
    && w.sends[j.h.id].Acked() && j.h.kind.slot in w.sends[j.h.id].expected
    && (j.Close? ==> Known(w.rec, j.h))
    && (j.Open? ==> !Known(w.rec, j.h) && w.sends[j.h.id].phase.Answered?
                    && (j.seen <==> !(j.h.id in w.table && j.h.kind.slot in w.table[j.h.id].handles)))
  }

  ghost predicate Inv(w: World) {
    && RecOk(w.rec)
    && (forall h | Known(w.rec, h) :: HandleOk(w, h))
    && (forall h | h in w.rec.live && h.kind.Delivery? :: Awaited(w, h))
    && (forall id | id in w.sends :: SendOk(w, id))
    && (forall id | id in w.table :: EntryOk(w, id))
    && (forall j | j in w.jobs :: JobOk(w, j))
  }

  lemma BeginSendKeeps(w: World, id: Id, start: int, expected: set<Slot>)
    requires Inv(w) && id !in w.sends
    ensures Inv(Next(w, BeginSend(id, start, expected)))
  {
    var v := Next(w, BeginSend(id, start, expected));
    assert Ended(v.rec) == Ended(w.rec);
    var own := Handle(id, Own, start);
    assert Known(w.rec, own) ==> HandleOk(w, own);
    forall h | Known(v.rec, h) ensures HandleOk(v, h) {
      assert Known(w.rec, h) || h == Handle(id, Own, start);
    }
    forall i | i in v.sends ensures SendOk(v, i) {
      if i != id {
        assert SendOk(w, i);
      }
    }
    forall i | i in v.table ensures EntryOk(v, i) {
      assert EntryOk(w, i);
    }
    forall j | j in v.jobs ensures JobOk(v, j) {
      assert JobOk(w, j);
    }
  }

  lemma RegisterKeeps(w: World, id: Id)
    requires Inv(w) && Legal(w, Register(id))
    ensures Inv(Next(w, Register(id)))
  {
    var v := Next(w, Register(id));
    forall i | i in v.sends ensures SendOk(v, i) {
      assert SendOk(w, i);
    }
    forall i | i in v.table ensures EntryOk(v, i) {
      if i in w.table {
        assert EntryOk(w, i);
      }
    }
  }

  lemma AnswerJobs(w: World, id: Id, ok: bool, j: Job)
    requires Inv(w) && Legal(w, Answer(id, ok)) && j in Next(w, Answer(id, ok)).jobs
    ensures JobOk(Next(w, Answer(id, ok)), j)
  {
    var v, s := Next(w, Answer(id, ok)), w.table[id];
    assert EntryOk(w, id);
    var c :| c in s.expected && j == Open(Del(id, c, s.started), c in s.early);
    assert Known(w.rec, j.h) ==> HandleOk(w, j.h);
    assert c !in s.early ==> c in s.expected - s.early;
    assert id in v.table ==> v.table[id].handles == s.expected - s.early;
  }

  lemma AnswerKeeps(w: World, id: Id, ok: bool)
    requires Inv(w) && Legal(w, Answer(id, ok))
    ensures Inv(Next(w, Answer(id, ok)))
  {
    var v := Next(w, Answer(id, ok));
    assert SendOk(w, id);
    if id in w.table {
      assert EntryOk(w, id);
    }
    forall i | i in v.sends ensures SendOk(v, i) {
      assert SendOk(w, i);
      if i == id && ok {
        forall c | c in v.sends[id].expected ensures Opened(v, id, c) {
          assert Open(Del(id, c, w.table[id].started), c in w.table[id].early) in v.jobs;
        }
      } else if v.sends[i].Acked() {
        forall c | c in v.sends[i].expected ensures Opened(v, i, c) {
          assert Opened(w, i, c);
        }
      }
    }
    forall i | i in v.table ensures EntryOk(v, i) {
      assert EntryOk(w, i);
    }
    forall j | j in v.jobs ensures JobOk(v, j) {
      AnswerJobs(w, id, ok, j);
    }
  }

  lemma EndSendKeeps(w: World, id: Id, result: Result)
    requires Inv(w) && Legal(w, EndSend(id, result))
    ensures Inv(Next(w, EndSend(id, result)))
  {
    var v := Next(w, EndSend(id, result));
    var own := OwnOf(w, id);
    EndKeeps(w.rec, own, result);
    assert SendOk(w, id);
    assert forall h :: Known(v.rec, h) <==> Known(w.rec, h);
    forall i | i in v.sends ensures SendOk(v, i) {
      assert SendOk(w, i);
      if v.sends[i].Acked() {
        forall c | c in v.sends[i].expected ensures Opened(v, i, c) {
          assert Opened(w, i, c);
        }
      }
    }
    forall i | i in v.table ensures EntryOk(v, i) {
      assert EntryOk(w, i);
    }
    forall j | j in v.jobs ensures JobOk(v, j) {
      assert JobOk(w, j);
    }
  }

  lemma OpenKeeps(w: World, h: Handle, seen: bool)
    requires Inv(w) && Open(h, seen) in w.jobs
    ensures Inv(Next(w, Work(Open(h, seen))))
  {
    var v := Next(w, Work(Open(h, seen)));
    assert JobOk(w, Open(h, seen));
    assert Ended(v.rec) == Ended(w.rec);
    forall x | Known(v.rec, x) ensures HandleOk(v, x) {
      assert x == h || Known(w.rec, x);
    }
    forall i | i in v.sends ensures SendOk(v, i) {
      assert SendOk(w, i);
      if v.sends[i].Acked() {
        forall c | c in v.sends[i].expected ensures Opened(v, i, c) {
          assert Opened(w, i, c);
        }
      }
    }
    forall i | i in v.table ensures EntryOk(v, i) {
      assert EntryOk(w, i);
    }
    forall j | j in v.jobs ensures JobOk(v, j) {
      if j in w.jobs {
        assert JobOk(w, j);
      }
    }
  }

  lemma CloseKeeps(w: World, h: Handle, result: Result)
    requires Inv(w) && Close(h, result) in w.jobs
    ensures Inv(Next(w, Work(Close(h, result))))
  {
    var v := Next(w, Work(Close(h, result)));
    EndKeeps(w.rec, h, result);
    assert forall x :: Known(v.rec, x) <==> Known(w.rec, x);
    forall i | i in v.sends ensures SendOk(v, i) {
      assert SendOk(w, i);
      if v.sends[i].Acked() {
        forall c | c in v.sends[i].expected ensures Opened(v, i, c) {
          assert Opened(w, i, c);
        }
      }
    }
    forall i | i in v.table ensures EntryOk(v, i) {
      assert EntryOk(w, i);
    }
    forall j | j in v.jobs ensures JobOk(v, j) {
      assert JobOk(w, j);
    }
  }

  /** A job that ends a delivery the table awaited. */
  predicate Settles(t: Table, j: Job) {
    && j.Close? && j.h.kind.Delivery? && j.h.id in t
    && j.h == Del(j.h.id, j.h.kind.slot, t[j.h.id].started) && j.h.kind.slot in t[j.h.id].handles
  }

  /** The same send with some of its deliveries no longer awaited. */
  predicate Trims(s: Tracked, s': Tracked) {
    s'.started == s.started && s'.expected == s.expected && s'.acked == s.acked && s'.handles <= s.handles
  }

  /** The table with some deliveries moved into jobs: only acknowledged sends go. */
  predicate Moves(t: Table, t': Table, jobs: set<Job>) {
    && (forall id | id in t' :: id in t && Trims(t[id], t'[id]))
    && (forall id | id in t && !t[id].acked :: id in t')
    && (forall j | j in jobs :: Settles(t, j))
  }

  /** A tracker call that only moves deliveries out of the table into jobs. */
  lemma TableKeeps(w: World, t: Table, jobs: set<Job>)
    requires Inv(w) && |w.jobs| == 0 && Moves(w.table, t, jobs)
    requires forall h | h in w.rec.live && h.kind.Delivery? :: Awaited(World(w.sends, t, jobs, w.rec), h)
    ensures Inv(World(w.sends, t, jobs, w.rec))
  {
    var v := World(w.sends, t, jobs, w.rec);
    forall h | Known(v.rec, h) ensures HandleOk(v, h) {
      assert HandleOk(w, h);
    }
    forall i | i in v.sends ensures SendOk(v, i) {
      assert SendOk(w, i);
      if i in w.table {
        assert EntryOk(w, i);
      }
      if v.sends[i].Acked() {
        forall c | c in v.sends[i].expected ensures Opened(v, i, c) {
          assert Opened(w, i, c);
        }
      }
    }
    forall i | i in v.table ensures EntryOk(v, i) {
      assert EntryOk(w, i);
    }
    forall j | j in v.jobs ensures JobOk(v, j) {
      assert EntryOk(w, j.h.id) && SendOk(w, j.h.id);
      assert Opened(w, j.h.id, j.h.kind.slot);
    }
  }

  /** An arrival moves at most its own delivery. */
  lemma SeeMoves(t: Table, id: Id, slot: Slot)
    ensures Moves(t, Observe(t, id, slot).0, Observe(t, id, slot).1)
  {
  }

  lemma SeeAwaits(w: World, id: Id, slot: Slot, h: Handle)
    requires Inv(w) && |w.jobs| == 0 && h in w.rec.live && h.kind.Delivery?
    ensures var (t, jobs) := Observe(w.table, id, slot); Awaited(World(w.sends, t, jobs, w.rec), h)
  {
    assert Awaited(w, h) && Known(w.rec, h) && HandleOk(w, h) && EntryOk(w, h.id);
    assert h == Del(h.id, h.kind.slot, w.table[h.id].started);
    if h.id == id && h.kind.slot != slot {
      assert h.kind.slot in w.table[id].handles - {slot};
    }
  }

  lemma SeeKeeps(w: World, id: Id, slot: Slot)
    requires Inv(w) && Legal(w, See(id, slot))
    ensures Inv(Next(w, See(id, slot)))
  {
    var (t, jobs) := Observe(w.table, id, slot);
    SeeMoves(w.table, id, slot);
    forall h | h in w.rec.live && h.kind.Delivery? ensures Awaited(World(w.sends, t, jobs, w.rec), h) {
      SeeAwaits(w, id, slot, h);
    }
    TableKeeps(w, t, jobs);
  }

  lemma SweepKeeps(w: World, cutoff: int)
    requires Inv(w) && Legal(w, Sweep(cutoff))
    ensures Inv(Next(w, Sweep(cutoff)))
  {
    var (t, jobs) := Expire(w.table, cutoff);
    forall h | h in w.rec.live && h.kind.Delivery? ensures Awaited(World(w.sends, t, jobs, w.rec), h) {
      assert Awaited(w, h) && HandleOk(w, h) && EntryOk(w, h.id);
      if Expires(w.table[h.id], cutoff) {
        assert Close(Del(h.id, h.kind.slot, w.table[h.id].started), Missed) in jobs;
      }
    }
    TableKeeps(w, t, jobs);
  }

  lemma DrainKeeps(w: World)
    requires Inv(w) && Legal(w, Drain)
    ensures Inv(Next(w, Drain))
  {
    var (t, jobs) := DrainRest(w.table);
    forall h | h in w.rec.live && h.kind.Delivery? ensures Awaited(World(w.sends, t, jobs, w.rec), h) {
      assert Awaited(w, h) && HandleOk(w, h) && EntryOk(w, h.id);
      assert Close(Del(h.id, h.kind.slot, w.table[h.id].started), Unfinished) in jobs;
    }
    forall id | id in w.table ensures w.table[id].acked {
      assert EntryOk(w, id);
    }
    TableKeeps(w, t, jobs);
  }

  lemma ForceStepKeeps(w: World, to: int, order: seq<Handle>)
    requires Inv(w) && Legal(w, Force(to, order))
    ensures Inv(Next(w, Force(to, order)))
  {
    var v := Next(w, Force(to, order));
    ForceKeeps(w.rec, order, |order|);
    forall i | i in v.sends ensures SendOk(v, i) {
      assert SendOk(w, i);
      if v.sends[i].Acked() {
        forall c | c in v.sends[i].expected ensures Opened(v, i, c) {
          assert Opened(w, i, c);
        }
      }
    }
    forall i | i in v.table ensures EntryOk(v, i) {
      assert EntryOk(w, i);
    }
    forall j | j in v.jobs ensures JobOk(v, j) {
      assert JobOk(w, j);
    }
  }

  lemma StepKeeps(w: World, e: Event)
    requires Inv(w) && Legal(w, e)
    ensures Inv(Next(w, e))
  {
    match e
    case BeginSend(id, start, expected) => BeginSendKeeps(w, id, start, expected);
    case Register(id) => RegisterKeeps(w, id);
    case Answer(id, ok) => AnswerKeeps(w, id, ok);
    case EndSend(id, result) => EndSendKeeps(w, id, result);
    case See(id, slot) => SeeKeeps(w, id, slot);
    case Sweep(cutoff) => SweepKeeps(w, cutoff);
    case Drain => DrainKeeps(w);
    case Work(job) =>
      if job.Open? {
        OpenKeeps(w, job.h, job.seen);
      } else {
        CloseKeeps(w, job.h, job.result);
      }
    case Force(to, order) => ForceStepKeeps(w, to, order);
  }

  lemma {:induction false} RunKeeps(es: seq<Event>)
    requires LegalRun(es)
    ensures Inv(Exec(es))
  {
    if es != [] {
      RunKeeps(es[..|es| - 1]);
      StepKeeps(Exec(es[..|es| - 1]), es[|es| - 1]);
    }
  }

  // What is promised

  function Times(samples: seq<Sample>, h: Handle): nat {
    if samples == [] then 0
    else Times(samples[..|samples| - 1], h) + if samples[|samples| - 1].handle == h then 1 else 0
  }

  lemma {:induction false} NeverSampled(samples: seq<Sample>, h: Handle)
    requires forall i | 0 <= i < |samples| :: samples[i].handle != h
    ensures Times(samples, h) == 0
  {
    if samples != [] {
      NeverSampled(samples[..|samples| - 1], h);
    }
  }

  lemma {:induction false} SampledOnce(samples: seq<Sample>, h: Handle, k: nat)
    requires k < |samples| && samples[k].handle == h
    requires forall i, j | 0 <= i < j < |samples| :: samples[i].handle != samples[j].handle
    ensures Times(samples, h) == 1
  {
    var front := samples[..|samples| - 1];
    if k == |samples| - 1 {
      NeverSampled(front, h);
    } else {
      SampledOnce(front, h, k);
    }
  }

  lemma TimesIs(r: Rec, h: Handle)
    requires RecOk(r)
    ensures Times(r.samples, h) == if h in Ended(r) then 1 else 0
  {
    if h in Ended(r) {
      var k :| 0 <= k < |r.samples| && r.samples[k].handle == h;
      SampledOnce(r.samples, h, k);
    } else {
      forall i | 0 <= i < |r.samples| ensures r.samples[i].handle != h {
        assert r.samples[i].handle in Ended(r);
      }
      NeverSampled(r.samples, h);
    }
  }

  function Count(w: World, id: Id, c: Slot): nat
    requires id in w.sends
  {
    Times(w.rec.samples, Del(id, c, w.sends[id].start))
  }

  /** In every interleaving, every expected delivery of an acknowledged send has
      one sample or is still live, and never both; a send that failed or was not
      answered yet has none. */
  lemma ExactlyOneSample(es: seq<Event>, id: Id, c: Slot)
    requires LegalRun(es) && id in Exec(es).sends
    ensures
      var w := Exec(es);
      var s, h := w.sends[id], Del(id, c, w.sends[id].start);
      && (s.Acked() && c in s.expected && !Busy(w, id) ==> Count(w, id, c) + (if h in w.rec.live then 1 else 0) == 1)
      && (!s.Acked() || c !in s.expected ==> Count(w, id, c) == 0 && h !in w.rec.live)
  {
    RunKeeps(es);
    var w := Exec(es);
    var h := Del(id, c, w.sends[id].start);
    TimesIs(w.rec, h);
    assert SendOk(w, id);
    if w.sends[id].Acked() && c in w.sends[id].expected && !Busy(w, id) {
      assert Opened(w, id, c);
    }
    assert Known(w.rec, h) ==> HandleOk(w, h);
  }

  /** Once the tracker has let a send go, all its deliveries are counted. */
  lemma LetGoIsCounted(es: seq<Event>, id: Id, c: Slot)
    requires LegalRun(es) && id in Exec(es).sends && id !in Exec(es).table && !Busy(Exec(es), id)
    requires Exec(es).sends[id].Acked() && c in Exec(es).sends[id].expected
    ensures Count(Exec(es), id, c) == 1
  {
    RunKeeps(es);
    ExactlyOneSample(es, id, c);
    var w := Exec(es);
    var h := Del(id, c, w.sends[id].start);
    assert !Awaited(w, h);
  }

  /** After the drain, nothing of any acknowledged send is missing. */
  lemma DrainCountsEverything(es: seq<Event>, id: Id, c: Slot)
    requires LegalRun(es) && Legal(Exec(es), Drain)
    requires id in Exec(es).sends && Exec(es).sends[id].Acked() && c in Exec(es).sends[id].expected
    ensures
      var w := Next(Exec(es), Drain);
      var h := Del(id, c, w.sends[id].start);
      Count(w, id, c) == 1 || (Close(h, Unfinished) in w.jobs && h in w.rec.live)
  {
    RunKeeps(es);
    ExactlyOneSample(es, id, c);
    var v := Exec(es);
    var w := Next(v, Drain);
    var h := Del(id, c, w.sends[id].start);
    if h in v.rec.live {
      assert Awaited(v, h) && Known(v.rec, h) && HandleOk(v, h) && EntryOk(v, id);
      assert Close(Del(id, c, v.table[id].started), Unfinished) in w.jobs;
    }
  }

  // Settling

  /** A delivery that is not counted although its send counts, or may yet. */
  predicate Uncounted(w: World, id: Id, c: Slot)
    requires id in w.sends
  {
    && c in w.sends[id].expected
    && (w.sends[id].phase.Begun? || w.sends[id].phase.Registered? || (w.sends[id].Acked() && Count(w, id, c) == 0))
  }

  /** An earlier settle gave this send up before its answer was dealt with. */
  predicate GivenUp(w: World, id: Id)
    requires id in w.sends
  {
    OwnOf(w, id) in Ended(w.rec) && !w.sends[id].phase.Over?
  }

  /** When a settle finds nothing live before its cutoff, a delivery of a send
      from before the cutoff is missing exactly when an earlier settle gave that
      send up and the tracker has not registered the delivery since. */
  lemma SettledExactly(es: seq<Event>, to: int, id: Id, c: Slot)
    requires LegalRun(es) && Quiet(Exec(es).rec, to)
    requires id in Exec(es).sends && Exec(es).sends[id].start < to && c in Exec(es).sends[id].expected
    ensures
      var w := Exec(es);
      var h := Del(id, c, w.sends[id].start);
      Uncounted(w, id, c) <==>
      GivenUp(w, id) && (w.sends[id].phase.Begun? || w.sends[id].phase.Registered? || Open(h, true) in w.jobs || Open(h, false) in w.jobs)
  {
    RunKeeps(es);
    var w := Exec(es);
    var h := Del(id, c, w.sends[id].start);
    TimesIs(w.rec, h);
    assert SendOk(w, id);
    assert h !in w.rec.live && OwnOf(w, id) !in w.rec.live;
    if w.sends[id].Acked() {
      assert Opened(w, id, c);
    }
    assert Open(h, true) in w.jobs ==> JobOk(w, Open(h, true));
    assert Open(h, false) in w.jobs ==> JobOk(w, Open(h, false));
  }

  ghost predicate ForcedNothing(es: seq<Event>) { forall i | 0 <= i < |es| && es[i].Force? :: es[i].order == [] }

  lemma {:induction false} NoneGivenUp(es: seq<Event>, id: Id)
    requires LegalRun(es) && ForcedNothing(es) && id in Exec(es).sends
    ensures !GivenUp(Exec(es), id)
  {
    var v, e := Exec(es[..|es| - 1]), es[|es| - 1];
    RunKeeps(es[..|es| - 1]);
    if id in v.sends {
      NoneGivenUp(es[..|es| - 1], id);
      StepGivesUpNone(v, e, id);
    } else {
      var own := Handle(id, Own, e.start);
      assert Known(v.rec, own) ==> HandleOk(v, own);
      assert Ended(Exec(es).rec) == Ended(v.rec);
    }
  }

  lemma StepGivesUpNone(v: World, e: Event, id: Id)
    requires Inv(v) && Legal(v, e) && id in v.sends && !GivenUp(v, id) && (e.Force? ==> e.order == [])
    ensures !GivenUp(Next(v, e), id)
  {
    var own := OwnOf(v, id);
    if e.EndSend? {
      EndKeeps(v.rec, OwnOf(v, e.id), e.result);
    } else if e.Work? && e.job.Close? {
      EndKeeps(v.rec, e.job.h, e.job.result);
      assert JobOk(v, e.job);
    } else {
      assert Ended(Next(v, e).rec) == Ended(v.rec);
    }
  }

  /** So a settle that finds nothing live leaves nothing uncounted, as long as
      no settle before it forced anything. */
  lemma SettledIsCounted(es: seq<Event>, to: int, id: Id, c: Slot)
    requires LegalRun(es) && ForcedNothing(es) && Quiet(Exec(es).rec, to)
    requires id in Exec(es).sends && Exec(es).sends[id].start < to && c in Exec(es).sends[id].expected
    ensures !Uncounted(Exec(es), id, c)
  {
    SettledExactly(es, to, id, c);
    NoneGivenUp(es, id);
  }

  /** A settle that returns zero found nothing live, unless it was cancelled. */
  lemma ZeroMeansQuiet(r: Rec, to: int, wake: Wake, order: seq<Handle>)
    requires forall h | h in r.live && h.at < to :: h in order
    requires SettleRound(r, to, wake, order).Some? && SettleRound(r, to, wake, order).value.1 == 0
    ensures Quiet(r, to) || wake.Cancelled?
  {
    if !Quiet(r, to) {
      var h :| h in r.live && h.at < to;
      assert h in order;
    }
  }

  lemma Extend(es: seq<Event>, e: Event)
    requires LegalRun(es) && Legal(Exec(es), e)
    ensures LegalRun(es + [e]) && Exec(es + [e]) == Next(Exec(es), e)
  {
    assert (es + [e])[..|es|] == es;
  }

  /** One send that expects one client, registered and not answered yet. */
  function OneSend(c: Slot): World {
    World(map[0 := Send(0, {c}, Registered)], map[0 := Tracked(0, {c}, false, {}, {})], {}, Rec({Handle(0, Own, 0)}, []))
  }

  lemma SentAndRegistered(c: Slot) returns (es: seq<Event>)
    ensures LegalRun(es) && Exec(es) == OneSend(c)
  {
    Extend([], BeginSend(0, 0, {c}));
    es := [] + [BeginSend(0, 0, {c})];
    Extend(es, Register(0));
    es := es + [Register(0)];
  }

  /** A delivery of a send from before the cutoff is not counted. */
  predicate Missing(w: World, c: Slot) { 0 in w.sends && w.sends[0].start < 1 && Uncounted(w, 0, c) }

  /** Why being cancelled matters: such a settle returns zero with a delivery
      uncounted. */
  lemma CancelledIsNotEnough(c: Slot) returns (es: seq<Event>)
    ensures LegalRun(es) && Missing(Exec(es), c)
    ensures SettleRound(Exec(es).rec, 1, Cancelled, []) == Some((Exec(es).rec, 0))
  {
    es := SentAndRegistered(c);
    assert Handle(0, Own, 0) in Exec(es).rec.live;
  }

  /** Why giving up matters: after a settle that forced the send to end, the
      next one finds nothing live with a delivery uncounted. */
  lemma QuietIsNotEnough(c: Slot) returns (es: seq<Event>)
    ensures LegalRun(es) && Missing(Exec(es), c) && Quiet(Exec(es).rec, 1)
  {
    var own := Handle(0, Own, 0);
    var sent := SentAndRegistered(c);
    var r := Exec(sent).rec;
    assert own in r.live;
    Extend(sent, Force(1, [own]));
    es := sent + [Force(1, [own])];
    assert ForceAll(r, [own], 1) == End(ForceAll(r, [own], 0), own, Unfinished);
  }
}
