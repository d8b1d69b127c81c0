/**
 Settlements beyond their reservation: exactly when one makes the bounded table
 answer differently from one that never evicts, and a run in which it does.
 */
module AdmissionOveruse {
  import opened Admission
  import opened AdmissionProofs

  // The exact condition

  /** What a balance has grown to by time t, before the cap. */
  function Grown(cap: real, period: real, balance: real, updated: real, t: real): real
    requires period > 0.0
  {
    if t > updated then balance + Gain(cap, period, t - updated) else balance
  }

  /** Two balances, grown to x and y, stay indistinguishable when one refund (or,
      if negative, one charge) is applied to both before they grow: it is a
      refund, or they are equal, or both stay beyond the cap. */
  predicate Alike(cap: real, x: real, y: real, refund: real) {
    refund >= 0.0 || x == y || (x + refund >= cap && y + refund >= cap)
  }

  lemma AlikeExactly(cap: real, b: real, gb: real, r: real, gr: real, refund: real)
    requires b <= cap && r <= cap && gb >= 0.0 && gr >= 0.0 && Min(cap, b + gb) == Min(cap, r + gr)
    ensures Min(cap, Min(cap, b + refund) + gb) == Min(cap, Min(cap, r + refund) + gr) <==> Alike(cap, b + gb, r + gr, refund)
  {
  }

  /** One balance of the two buckets: equal at t, and after the refund equal
      exactly under the condition. */
  lemma BalanceAlike(cap: real, period: real, b: real, bu: real, r: real, ru: real, t: real, refund: real)
    requires cap > 0.0 && period > 0.0 && b <= cap && r <= cap && bu <= t && ru <= t
    requires Min(cap, Grown(cap, period, b, bu, t)) == Min(cap, Grown(cap, period, r, ru, t))
    ensures Min(cap, Grown(cap, period, Min(cap, b + refund), bu, t)) == Min(cap, Grown(cap, period, Min(cap, r + refund), ru, t))
            <==> Alike(cap, Grown(cap, period, b, bu, t), Grown(cap, period, r, ru, t), refund)
  {
    var gb := if t > bu then Gain(cap, period, t - bu) else 0.0;
    var gr := if t > ru then Gain(cap, period, t - ru) else 0.0;
    if t > bu {
      GainPositive(cap, period, t - bu);
    }
    if t > ru {
      GainPositive(cap, period, t - ru);
    }
    AlikeExactly(cap, b, gb, r, gr, refund);
  }

  /** A capped bucket refilled at t. */
  lemma RefillIs(c: Caps, b: Bucket, t: real)
    requires Capped(c, b) && b.updated <= t
    ensures Refill(c, b, t) == Bucket(Min(c.deliveriesPerMinute, Grown(c.deliveriesPerMinute, MINUTE, b.deliveries, b.updated, t)),
                                      Min(c.bytesPerHour, Grown(c.bytesPerHour, HOUR, b.bytes, b.updated, t)), t, b.outstanding)
  {
  }

  predicate BucketsAlike(c: Caps, b: Bucket, r: Bucket, t: real, x: real, y: real) {
    && Alike(c.deliveriesPerMinute, Grown(c.deliveriesPerMinute, MINUTE, b.deliveries, b.updated, t),
             Grown(c.deliveriesPerMinute, MINUTE, r.deliveries, r.updated, t), x)
    && Alike(c.bytesPerHour, Grown(c.bytesPerHour, HOUR, b.bytes, b.updated, t),
             Grown(c.bytesPerHour, HOUR, r.bytes, r.updated, t), y)
  }

  lemma CreditAlike(c: Caps, b: Bucket, r: Bucket, t: real, x: real, y: real)
    requires Positive(c) && Capped(c, b) && Capped(c, r) && b.updated <= t && r.updated <= t && Refill(c, b, t) == Refill(c, r, t)
    ensures Refill(c, Credit(c, b, x, y), t) == Refill(c, Credit(c, r, x, y), t) <==> BucketsAlike(c, b, r, t, x, y)
  {
    RefillIs(c, b, t);
    RefillIs(c, r, t);
    RefillIs(c, Credit(c, b, x, y), t);
    RefillIs(c, Credit(c, r, x, y), t);
    BalanceAlike(c.deliveriesPerMinute, MINUTE, b.deliveries, b.updated, r.deliveries, r.updated, t, x);
    BalanceAlike(c.bytesPerHour, HOUR, b.bytes, b.updated, r.bytes, r.updated, t, y);
  }

  // Buckets that differ answer some request differently

  lemma WaitBeyond(v: real, cap: real, period: real, w: real)
    requires cap > 0.0 && period > 0.0 && v > w / period * cap
    ensures v / cap * period > w
  {
    var q, z := v / cap, w / period;
    assert q * cap == v && z * period == w;
    assert q > z;
    assert q * period > z * period;
  }

  lemma WaitsDiffer(v: real, u: real, cap: real, period: real)
    requires cap > 0.0 && period > 0.0 && v != u
    ensures v / cap * period != u / cap * period
  {
    assert v / cap * cap == v && u / cap * cap == u;
  }

  /** An amount no smaller than either of two reals. */
  function Enough(x: real, y: real): (n: int)
    ensures n >= 1 && n as real > x && n as real > y
  {
    var m := Max(Max(x, y), 0.0);
    m.Floor + 1
  }

  function Wait(need: real, balance: real, cap: real, period: real): real
    requires cap > 0.0
  {
    if balance < need then (need - balance) / cap * period else 0.0
  }

  lemma DecideIs(c: Caps, b: Bucket, need: real, needBytes: real)
    requires Positive(c) && (b.deliveries < need || b.bytes < needBytes)
    ensures Decide(c, b, need, needBytes)
            == Refused(Max(Max(Wait(need, b.deliveries, c.deliveriesPerMinute, MINUTE), Wait(needBytes, b.bytes, c.bytesPerHour, HOUR)), 1.0))
  {
  }

  /** A request for enough of what two balances differ in waits for that alone. */
  lemma TellApart(x: real, y: real, cap: real, period: real, other: real) returns (n: int)
    requires cap > 0.0 && period > 0.0 && x != y
    ensures n >= 1 && x < n as real && y < n as real
    ensures Wait(n as real, x, cap, period) > Max(other, 1.0) && Wait(n as real, y, cap, period) > Max(other, 1.0)
    ensures Wait(n as real, x, cap, period) != Wait(n as real, y, cap, period)
  {
    var w := Max(Max(other, 1.0), 1.0);
    var slack := Max(w / period * cap, 0.0);
    n := Enough(x + slack, y + slack);
    WaitBeyond(n as real - x, cap, period, w);
    WaitBeyond(n as real - y, cap, period, w);
    WaitsDiffer(n as real - x, n as real - y, cap, period);
  }

  lemma DeliveriesTell(c: Caps, b: Bucket, r: Bucket) returns (d: int, n: int)
    requires Positive(c) && b.deliveries != r.deliveries
    ensures Decide(c, b, Need(d, 1), Need(n, 0)) != Decide(c, r, Need(d, 1), Need(n, 0))
  {
    n := 0;
    d := TellApart(b.deliveries, r.deliveries, c.deliveriesPerMinute, MINUTE,
                   Max(Wait(0.0, b.bytes, c.bytesPerHour, HOUR), Wait(0.0, r.bytes, c.bytesPerHour, HOUR)));
    assert Need(d, 1) == d as real && Need(n, 0) == 0.0;
    DecideIs(c, b, d as real, 0.0);
    DecideIs(c, r, d as real, 0.0);
  }

  lemma BytesTell(c: Caps, b: Bucket, r: Bucket) returns (d: int, n: int)
    requires Positive(c) && b.bytes != r.bytes
    ensures Decide(c, b, Need(d, 1), Need(n, 0)) != Decide(c, r, Need(d, 1), Need(n, 0))
  {
    d := 1;
    n := TellApart(b.bytes, r.bytes, c.bytesPerHour, HOUR,
                   Max(Wait(1.0, b.deliveries, c.deliveriesPerMinute, MINUTE), Wait(1.0, r.deliveries, c.deliveriesPerMinute, MINUTE)));
    assert Need(d, 1) == 1.0 && Need(n, 0) == n as real;
    DecideIs(c, b, 1.0, n as real);
    DecideIs(c, r, 1.0, n as real);
  }

  /** Some request of account a, now, gets a different answer or wait from the
      table that never evicts. */
  ghost predicate Observable(c: Caps, max: nat, w: World, a: Account)
    requires Positive(c) && Shaped(w.s)
  {
    exists d, b :: Differs(c, max, w, a, d, b)
  }

  predicate Differs(c: Caps, max: nat, w: World, a: Account, d: int, b: int)
    requires Positive(c) && Shaped(w.s)
  {
    Reserve(c, max, w.s, a, d, b, w.clock, []).1 != RefReserve(c, w.ref, a, Need(d, 1), Need(b, 0), w.clock).1
  }

  lemma AnswersAre(c: Caps, max: nat, w: World, a: Account, d: int, b: int)
    requires Positive(c) && Shaped(w.s) && a in w.s.table
    ensures Reserve(c, max, w.s, a, d, b, w.clock, []).1 == Decide(c, View(c, w.s, a, w.clock), Need(d, 1), Need(b, 0))
    ensures RefReserve(c, w.ref, a, Need(d, 1), Need(b, 0), w.clock).1
            == Decide(c, RefBucket(c, w.ref, a, w.clock), Need(d, 1), Need(b, 0))
  {
    assert Route(c, max, w.s, a, [], w.clock) == (w.s, w.s.table[a]);
  }

  lemma ObservableExactly(c: Caps, max: nat, w: World, a: Account)
    requires Positive(c) && Shaped(w.s) && a in w.s.table
    ensures Observable(c, max, w, a) <==>
            var v, r := View(c, w.s, a, w.clock), RefBucket(c, w.ref, a, w.clock); v.deliveries != r.deliveries || v.bytes != r.bytes
  {
    var v, r := View(c, w.s, a, w.clock), RefBucket(c, w.ref, a, w.clock);
    if v.deliveries != r.deliveries {
      var d, b := DeliveriesTell(c, v, r);
      AnswersAre(c, max, w, a, d, b);
      assert Differs(c, max, w, a, d, b);
    } else if v.bytes != r.bytes {
      var d, b := BytesTell(c, v, r);
      AnswersAre(c, max, w, a, d, b);
      assert Differs(c, max, w, a, d, b);
    } else {
      forall d, b ensures !Differs(c, max, w, a, d, b) {
        AnswersAre(c, max, w, a, d, b);
      }
    }
  }

  /** A settlement's effect on its account, here and in the table that never
      evicts: the same refund on each bucket. */
  lemma SettledBuckets(c: Caps, max: nat, w: World, i: nat, d: int, b: int)
    requires Positive(c) && Good(c, w.s, w.clock) && Agree(c, w)
    requires i < |w.s.tickets| && !w.s.tickets[i].done && w.s.tickets[i].owner.Own?
    ensures var t, w' := w.s.tickets[i], Next(c, max, w, Settling(i, d, b));
            var a, x, y := t.owner.a, t.deliveries - Need(d, 0), t.bytes - Need(b, 0);
            && a in w.s.table && w.s.table[a] == t.bk && t.bk in w.s.heap && a in w.ref && a in w'.s.table && w'.clock == w.clock
            && View(c, w'.s, a, w.clock) == Refill(c, Credit(c, w.s.heap[t.bk], x, y), w.clock)
            && RefBucket(c, w'.ref, a, w.clock) == Refill(c, Credit(c, w.ref[a], x, y), w.clock)
            && Refill(c, w.s.heap[t.bk], w.clock) == Refill(c, w.ref[a], w.clock)
  {
    var t := w.s.tickets[i];
    assert Reachable(w.s, t);
    assert View(c, w.s, t.owner.a, w.clock) == RefBucket(c, w.ref, t.owner.a, w.clock);
  }

  /** The never-evicting table's balances stay within the caps. */
  ghost predicate RefCapped(c: Caps, ref: map<Account, Bucket>) { forall a :: a in ref ==> Capped(c, ref[a]) }

  lemma {:induction false} RunRefCapped(c: Caps, max: nat, clock: real, es: seq<Event>, thrifty: bool)
    requires Positive(c) && Run(c, max, Start(c, clock), es, thrifty)
    ensures RefCapped(c, Exec(c, max, Start(c, clock), es).ref)
  {
    if es != [] {
      RunRefCapped(c, max, clock, es[..|es| - 1], thrifty);
      RefCappedStep(c, max, Exec(c, max, Start(c, clock), es[..|es| - 1]), es[|es| - 1]);
    }
  }

  lemma RefCappedStep(c: Caps, max: nat, w: World, e: Event)
    requires Positive(c) && Shaped(w.s) && RefCapped(c, w.ref)
    ensures RefCapped(c, Next(c, max, w, e).ref)
  {
    if e.Reserving? {
      var b := if e.a in w.ref then w.ref[e.a] else Fresh(c, e.now);
      RefillCaps(c, b, e.now);
    }
  }

  lemma SameElse(c: Caps, b: Bucket, r: Bucket, t: real, x: real, y: real)
    requires b.updated <= t && r.updated <= t && Refill(c, b, t) == Refill(c, r, t)
    ensures var v, u := Refill(c, Credit(c, b, x, y), t), Refill(c, Credit(c, r, x, y), t);
            v.updated == u.updated && v.outstanding == u.outstanding
  {
  }

  /** The settlement of an unsettled ticket taken from an account's own entry. */
  predicate Settleable(w: World, i: nat) { i < |w.s.tickets| && !w.s.tickets[i].done && w.s.tickets[i].owner.Own? }

  /** What it refunds (or charges) leaves the account's two buckets alike. */
  predicate SettlesAlike(c: Caps, w: World, i: nat, d: int, b: int)
    requires Settleable(w, i)
  {
    var t := w.s.tickets[i];
    && t.bk in w.s.heap && t.owner.a in w.ref
    && BucketsAlike(c, w.s.heap[t.bk], w.ref[t.owner.a], w.clock, t.deliveries - Need(d, 0), t.bytes - Need(b, 0))
  }

  lemma OveruseAt(c: Caps, max: nat, w: World, i: nat, d: int, b: int)
    requires Positive(c) && Good(c, w.s, w.clock) && Agree(c, w) && RefCapped(c, w.ref) && Settleable(w, i)
    ensures Observable(c, max, Next(c, max, w, Settling(i, d, b)), w.s.tickets[i].owner.a) <==> !SettlesAlike(c, w, i, d, b)
  {
    SettledBuckets(c, max, w, i, d, b);
    var t, a := w.s.tickets[i], w.s.tickets[i].owner.a;
    var x, y := t.deliveries - Need(d, 0), t.bytes - Need(b, 0);
    CreditAlike(c, w.s.heap[t.bk], w.ref[a], w.clock, x, y);
    SameElse(c, w.s.heap[t.bk], w.ref[a], w.clock, x, y);
    ObservableExactly(c, max, Next(c, max, w, Settling(i, d, b)), a);
  }

  /** After any run whose settlements stay within their reservations, one more
      settlement of any size shows that entries are evicted exactly when it
      charges what was not reserved and the two tables, having grown the balance
      over different spans, can be told apart by it. */
  lemma OveruseExactly(c: Caps, max: nat, clock: real, es: seq<Event>, w: World, i: nat, d: int, b: int)
    requires Positive(c) && Run(c, max, Start(c, clock), es, true) && w == Exec(c, max, Start(c, clock), es)
    requires Settleable(w, i)
    ensures Observable(c, max, Next(c, max, w, Settling(i, d, b)), w.s.tickets[i].owner.a) <==> !SettlesAlike(c, w, i, d, b)
  {
    RunAgrees(c, max, clock, es);
    RunGood(c, max, clock, es, true);
    RunRefCapped(c, max, clock, es, true);
    OveruseAt(c, max, w, i, d, b);
  }

  // Use beyond a reservation

  const sixty := Caps(60.0, 3600.0)
  const first := Reserving("a", 1, 0, 0.0, [])
  const visitor := Reserving("b", 1, 0, 60.0, ["a"])
  const overuse := Settling(0, 11, 0)
  const again := Reserving("a", 60, 0, 60.0, [])

  /** A minute refills sixty. */
  lemma MinuteRefills(b: Bucket)
    requires b.updated == 0.0 && 0.0 <= b.deliveries <= 60.0 && b.bytes == 3600.0
    ensures Refill(sixty, b, 60.0) == b.(deliveries := 60.0, updated := 60.0)
  {
    assert MINUTE / MINUTE == 1.0;
    assert Gain(60.0, MINUTE, 60.0) == 60.0;
    GainPositive(3600.0, HOUR, 60.0);
  }

  lemma AfterFirst()
    ensures var w := Next(sixty, 1, Start(sixty, 0.0), first);
            && w.s.table == map["a" := 1] && w.s.heap == map[OVERFLOW := Fresh(sixty, 0.0), 1 := Bucket(59.0, 3600.0, 0.0, 1)]
            && w.s.tickets == [Ticket(Own("a"), 1, 1.0, 0.0, false, 0.0, 0.0)] && !w.s.sharedStarted
            && w.ref == map["a" := Bucket(59.0, 3600.0, 0.0, 1)] && w.clock == 0.0
  {
  }

  lemma OneEntrySweep(c: Caps, s: State, a: Account, now: real, limit: nat, s1: State)
    requires Shaped(s) && a in s.table && Look(c, s, a, now) == (s1, false) && limit > 0
    ensures Sweep(c, s, [a], 0, now, limit) == (s1, false)
  {
    var s2, stop, rest := SweepUnfold(c, s, [a], 0, now, limit);
    SweepEnds(c, s1, [a], now, rest);
  }

  lemma SweepEnds(c: Caps, s: State, order: seq<Account>, now: real, limit: nat)
    requires Shaped(s)
    ensures Sweep(c, s, order, |order|, now, limit) == (s, false)
  {
  }

  /** A visitor of a full table refills the entry it samples and leaves it. */
  lemma VisitorLeaves(c: Caps, w: World, v: Account, a: Account, k: BucketId, now: real)
    requires Positive(c) && Shaped(w.s) && w.s.table == map[a := k] && v != a && k in w.s.heap && k != OVERFLOW
    requires w.s.heap[k].outstanding > 0 && |w.s.tickets| > 0
    ensures var u := Next(c, 1, w, Reserving(v, 1, 0, now, [a]));
            && u.s.table == w.s.table && k in u.s.heap && u.s.heap[k] == Refill(c, w.s.heap[k], now)
            && |u.s.tickets| > 0 && u.s.tickets[0] == w.s.tickets[0] && u.ref == w.ref && u.clock == now
  {
    OneEntrySweep(c, w.s, a, now, SAMPLE, Touch(c, w.s, k, now));
  }

  lemma AfterVisitor()
    ensures var w := Next(sixty, 1, Next(sixty, 1, Start(sixty, 0.0), first), visitor);
            && w.s.table == map["a" := 1] && 1 in w.s.heap && w.s.heap[1] == Bucket(60.0, 3600.0, 60.0, 1)
            && |w.s.tickets| > 0 && w.s.tickets[0] == Ticket(Own("a"), 1, 1.0, 0.0, false, 0.0, 0.0)
            && w.ref == map["a" := Bucket(59.0, 3600.0, 0.0, 1)] && w.clock == 60.0
  {
    AfterFirst();
    var w := Next(sixty, 1, Start(sixty, 0.0), first);
    VisitorLeaves(sixty, w, "b", "a", 1, 60.0);
    MinuteRefills(w.s.heap[1]);
  }

  lemma Extend(c: Caps, max: nat, w: World, es: seq<Event>, e: Event)
    requires Positive(c) && Shaped(w.s) && Run(c, max, w, es, false) && OnTime(Exec(c, max, w, es), e)
    ensures Run(c, max, w, es + [e], false) && Exec(c, max, w, es + [e]) == Next(c, max, Exec(c, max, w, es), e)
  {
    assert (es + [e])[..|es|] == es;
  }

  /** The settlement beyond its reservation: the full entry loses ten, the idle
      one of the table that never evicts loses ten of what it had. */
  lemma AfterOveruse(w2: World)
    requires Shaped(w2.s) && w2.s.table == map["a" := 1] && 1 in w2.s.heap && w2.s.heap[1] == Bucket(60.0, 3600.0, 60.0, 1)
    requires |w2.s.tickets| > 0 && w2.s.tickets[0] == Ticket(Own("a"), 1, 1.0, 0.0, false, 0.0, 0.0)
    requires w2.ref == map["a" := Bucket(59.0, 3600.0, 0.0, 1)] && w2.clock == 60.0
    ensures var w := Next(sixty, 1, w2, overuse);
            && Shaped(w.s) && w.s.table == map["a" := 1] && 1 in w.s.heap && w.s.heap[1] == Bucket(50.0, 3600.0, 60.0, 0)
            && "a" in w.ref && w.ref["a"] == Bucket(49.0, 3600.0, 0.0, 0) && w.clock == 60.0
  {
  }

  lemma RefusedHere(s: State)
    requires Shaped(s) && s.table == map["a" := 1] && 1 in s.heap && s.heap[1] == Bucket(50.0, 3600.0, 60.0, 0)
    ensures Reserve(sixty, 1, s, "a", 60, 0, 60.0, []).1.Refused?
  {
    assert Route(sixty, 1, s, "a", [], 60.0) == (s, 1);
    assert Touch(sixty, s, 1, 60.0).heap[1] == Bucket(50.0, 3600.0, 60.0, 0);
  }

  lemma AdmittedThere(ref: map<Account, Bucket>)
    requires "a" in ref && ref["a"] == Bucket(49.0, 3600.0, 0.0, 0)
    ensures RefReserve(sixty, ref, "a", Need(60, 1), Need(0, 0), 60.0).1.Admitted?
  {
    MinuteRefills(ref["a"]);
    assert RefBucket(sixty, ref, "a", 60.0) == Bucket(60.0, 3600.0, 60.0, 0);
  }

  /** The condition is needed. An entry sampled for eviction is refilled early,
      so a later settlement beyond its reservation is charged to a full bucket
      instead of an idle one: the next request is refused where the table that
      never evicts would admit it. */
  lemma OveruseIsObservable() returns (es: seq<Event>)
    ensures Run(sixty, 1, Start(sixty, 0.0), es, false)
    ensures var w := Exec(sixty, 1, Start(sixty, 0.0), es);
            && OnTime(w, again) && again.a in w.s.table
            && Reserve(sixty, 1, w.s, again.a, 60, 0, again.now, []).1.Refused?
            && RefReserve(sixty, w.ref, again.a, Need(60, 1), Need(0, 0), again.now).1.Admitted?
  {
    var w0 := Start(sixty, 0.0);
    AfterFirst();
    AfterVisitor();
    Extend(sixty, 1, w0, [], first);
    Extend(sixty, 1, w0, [] + [first], visitor);
    Extend(sixty, 1, w0, [] + [first] + [visitor], overuse);
    es := [] + [first] + [visitor] + [overuse];
    AfterOveruse(Exec(sixty, 1, w0, [] + [first] + [visitor]));
    RefusedHere(Exec(sixty, 1, w0, es).s);
    AdmittedThere(Exec(sixty, 1, w0, es).ref);
  }
}
