/**
 What an account can be charged in total: one full window plus the refill since
 it was first charged, however its entry is evicted and made again.
 */
module AdmissionBound {
  import opened Admission
  import opened AdmissionProofs

  datatype Limit = Deliveries | Bytes

  function Cap(c: Caps, l: Limit): real { if l.Deliveries? then c.deliveriesPerMinute else c.bytesPerHour }

  function Period(l: Limit): (p: real)
    ensures p > 0.0
  {
    if l.Deliveries? then MINUTE else HOUR
  }

  function Balance(b: Bucket, l: Limit): real { if l.Deliveries? then b.deliveries else b.bytes }

  /** What a ticket has cost: its reservation until it is settled, then its use. */
  function Cost(t: Ticket, l: Limit): real {
    if l.Deliveries? then (if t.done then t.usedDeliveries else t.deliveries)
    else (if t.done then t.usedBytes else t.bytes)
  }

  function Charged(ts: seq<Ticket>, o: Owner, l: Limit): real {
    if ts == [] then 0.0
    else Charged(ts[..|ts| - 1], o, l) + if ts[|ts| - 1].owner == o then Cost(ts[|ts| - 1], l) else 0.0
  }

  lemma {:induction false} ChargedUpdate(ts: seq<Ticket>, i: nat, t: Ticket, o: Owner, l: Limit)
    requires i < |ts| && t.owner == ts[i].owner
    ensures Charged(ts[i := t], o, l) == Charged(ts, o, l) + if t.owner == o then Cost(t, l) - Cost(ts[i], l) else 0.0
  {
    var n := |ts| - 1;
    if i < n {
      assert ts[i := t][..n] == ts[..n][i := t];
      ChargedUpdate(ts[..n], i, t, o, l);
    } else {
      assert ts[i := t][..n] == ts[..n];
    }
  }

  /** The bucket owner o is charged to; an account without an entry stands for a
      full one. */
  function Stored(c: Caps, s: State, o: Owner, clock: real): Bucket
    requires Shaped(s)
  {
    match o
    case Shared => s.heap[OVERFLOW]
    case Own(a) => if a in s.table then s.heap[s.table[a]] else Fresh(c, clock)
  }

  predicate Present(s: State, o: Owner) {
    match o case Shared => s.sharedStarted case Own(a) => a in s.table
  }

  /** Balance and charges together stay within one window plus the refill. */
  predicate Within(c: Caps, s: State, o: Owner, l: Limit, clock: real, first: map<Owner, real>)
    requires Shaped(s)
  {
    var b := Stored(c, s, o, clock);
    if o in first then
      first[o] <= b.updated && (o.Own? || s.sharedStarted)
      && Balance(b, l) + Charged(s.tickets, o, l) <= Cap(c, l) + Gain(Cap(c, l), Period(l), b.updated - first[o])
    else !Present(s, o) && Charged(s.tickets, o, l) == 0.0
  }

  ghost predicate AllWithin(c: Caps, s: State, l: Limit, clock: real, first: map<Owner, real>)
    requires Shaped(s)
  {
    && (forall o :: Within(c, s, o, l, clock, first))
    && forall i :: 0 <= i < |s.tickets| ==> s.tickets[i].owner in first
  }

  lemma RefillGains(c: Caps, b: Bucket, l: Limit, now: real)
    requires Positive(c)
    ensures Balance(Refill(c, b, now), l) <= Balance(b, l) + if now > b.updated then Gain(Cap(c, l), Period(l), now - b.updated) else 0.0
  {
  }

  /** Refilling a bucket uses up exactly the time that passed. */
  lemma RefillWithin(c: Caps, b: Bucket, l: Limit, now: real, charged: real, first: real)
    requires Positive(c) && first <= b.updated
    requires Balance(b, l) + charged <= Cap(c, l) + Gain(Cap(c, l), Period(l), b.updated - first)
    ensures var r := Refill(c, b, now);
            first <= r.updated && Balance(r, l) + charged <= Cap(c, l) + Gain(Cap(c, l), Period(l), r.updated - first)
  {
    RefillGains(c, b, l, now);
    if now > b.updated {
      GainAdds(Cap(c, l), Period(l), b.updated - first, now - b.updated);
    }
  }

  lemma WithinLater(c: Caps, s: State, l: Limit, clock: real, now: real, first: map<Owner, real>)
    requires Positive(c) && Shaped(s) && AllWithin(c, s, l, clock, first) && clock <= now
    ensures AllWithin(c, s, l, now, first)
  {
    forall o ensures Within(c, s, o, l, now, first) {
      assert Within(c, s, o, l, clock, first);
      if o in first && !Present(s, o) && o.Own? {
        GainAdds(Cap(c, l), Period(l), clock - first[o], now - clock);
        GainPositive(Cap(c, l), Period(l), now - clock);
      }
    }
  }

  lemma TouchWithin(c: Caps, s: State, k: BucketId, l: Limit, now: real, first: map<Owner, real>)
    requires Positive(c) && Shaped(s) && k in s.heap && AllWithin(c, s, l, now, first)
    ensures Shaped(Touch(c, s, k, now)) && AllWithin(c, Touch(c, s, k, now), l, now, first)
  {
    var s' := Touch(c, s, k, now);
    forall o ensures Within(c, s', o, l, now, first) {
      assert Within(c, s, o, l, now, first);
      if o in first {
        RefillWithin(c, Stored(c, s, o, now), l, now, Charged(s.tickets, o, l), first[o]);
      }
    }
  }

  lemma LookWithin(c: Caps, s: State, a: Account, l: Limit, now: real, first: map<Owner, real>)
    requires Positive(c) && Good(c, s, now) && a in s.table && AllWithin(c, s, l, now, first)
    ensures AllWithin(c, Look(c, s, a, now).0, l, now, first)
  {
    var k := s.table[a];
    TouchWithin(c, s, k, l, now, first);
    RefillCaps(c, s.heap[k], now);
    var s1 := Touch(c, s, k, now);
    var (s', dropped) := Look(c, s, a, now);
    if dropped {
      forall o ensures Within(c, s', o, l, now, first) {
        assert Within(c, s1, o, l, now, first);
        if o == Own(a) {
          assert s1.heap[k] == Fresh(c, now);
        }
      }
    }
  }

  lemma {:induction false} SweepWithin(c: Caps, s: State, order: seq<Account>, n: nat, l: Limit, now: real, limit: nat, first: map<Owner, real>)
    requires Positive(c) && Good(c, s, now) && AllWithin(c, s, l, now, first)
    ensures AllWithin(c, Sweep(c, s, order, n, now, limit).0, l, now, first)
    decreases |order| - n
  {
    if n < |order| && limit > 0 {
      var s1, stop, rest := SweepUnfold(c, s, order, n, now, limit);
      if order[n] in s.table {
        LookWithin(c, s, order[n], l, now, first);
        LookGood(c, s, order[n], now, now);
      }
      if !stop {
        SweepWithin(c, s1, order, n + 1, l, now, rest, first);
      }
    }
  }

  /** An owner is first charged when a reservation is first routed to it. */
  function FirstAfter(first: map<Owner, real>, o: Owner, now: real): map<Owner, real> {
    if o in first then first else first[o := now]
  }

  lemma AddWithin(c: Caps, s: State, a: Account, l: Limit, now: real, first: map<Owner, real>)
    requires Positive(c) && Good(c, s, now) && a !in s.table && AllWithin(c, s, l, now, first)
    ensures Shaped(Add(c, s, a, now)) && AllWithin(c, Add(c, s, a, now), l, now, FirstAfter(first, Own(a), now))
  {
    var s' := Add(c, s, a, now);
    forall o ensures Within(c, s', o, l, now, FirstAfter(first, Own(a), now)) {
      assert Within(c, s, o, l, now, first);
    }
  }

  lemma SharedWithin(c: Caps, s: State, l: Limit, now: real, first: map<Owner, real>)
    requires Positive(c) && Good(c, s, now) && !s.sharedStarted && AllWithin(c, s, l, now, first)
    ensures var s' := s.(heap := s.heap[OVERFLOW := s.heap[OVERFLOW].(updated := now)], sharedStarted := true);
            Shaped(s') && AllWithin(c, s', l, now, FirstAfter(first, Shared, now))
  {
    var s' := s.(heap := s.heap[OVERFLOW := s.heap[OVERFLOW].(updated := now)], sharedStarted := true);
    assert Within(c, s, Shared, l, now, first);
    forall o ensures Within(c, s', o, l, now, FirstAfter(first, Shared, now)) {
      assert Within(c, s, o, l, now, first);
    }
  }

  lemma RouteWithin(c: Caps, max: nat, s: State, e: Event, l: Limit, clock: real, first: map<Owner, real>)
    requires Positive(c) && Good(c, s, clock) && |s.table| <= max && AllWithin(c, s, l, clock, first)
    requires e.Reserving? && clock <= e.now
    ensures var (s', k) := Route(c, max, s, e.a, e.order, e.now);
            AllWithin(c, s', l, e.now, FirstAfter(first, OwnerOf(s', e.a), e.now))
  {
    var (s', k) := Route(c, max, s, e.a, e.order, e.now);
    WithinLater(c, s, l, clock, e.now, first);
    if e.a in s.table {
      assert Within(c, s, Own(e.a), l, e.now, first);
    } else if |s.table| < max {
      AddWithin(c, s, e.a, l, e.now, first);
    } else {
      var (s1, ok) := Sweep(c, s, e.order, 0, e.now, SAMPLE);
      SweepGood(c, s, e.order, 0, e.now, SAMPLE, clock);
      SweepWithin(c, s, e.order, 0, l, e.now, SAMPLE, first);
      if ok {
        AddWithin(c, s1, e.a, l, e.now, first);
      } else if !s1.sharedStarted {
        SharedWithin(c, s1, l, e.now, first);
      } else {
        assert Within(c, s1, Shared, l, e.now, first);
      }
    }
  }

  lemma ChargeShaped(s: State, k: BucketId, o: Owner, need: real, needBytes: real)
    requires Shaped(s) && k in s.heap
    ensures Shaped(Charge(s, k, o, need, needBytes))
  {
  }

  lemma ChargedMore(ts: seq<Ticket>, t: Ticket, o: Owner, l: Limit)
    ensures Charged(ts + [t], o, l) == Charged(ts, o, l) + if t.owner == o then Cost(t, l) else 0.0
  {
    assert (ts + [t])[..|ts|] == ts;
  }

  /** A charge moves its cost from the balance to the total. */
  lemma ChargeWithinAt(c: Caps, s: State, a: Account, need: real, needBytes: real, l: Limit, now: real,
                       first: map<Owner, real>, o: Owner)
    requires Positive(c) && Shaped(s) && Within(c, s, o, l, now, first) && OwnerOf(s, a) in first
    ensures var k := if a in s.table then s.table[a] else OVERFLOW;
            var s' := Charge(s, k, OwnerOf(s, a), need, needBytes);
            Shaped(s') && Within(c, s', o, l, now, first)
  {
    var k := if a in s.table then s.table[a] else OVERFLOW;
    var s' := Charge(s, k, OwnerOf(s, a), need, needBytes);
    ChargeShaped(s, k, OwnerOf(s, a), need, needBytes);
    ChargedMore(s.tickets, s'.tickets[|s.tickets|], o, l);
    if o == OwnerOf(s, a) {
      assert Stored(c, s', o, now) == Debit(Stored(c, s, o, now), need, needBytes);
    } else {
      assert Stored(c, s', o, now) == Stored(c, s, o, now);
    }
  }

  lemma ChargeWithin(c: Caps, s: State, a: Account, need: real, needBytes: real, l: Limit, now: real, first: map<Owner, real>)
    requires Positive(c) && Shaped(s) && AllWithin(c, s, l, now, first) && OwnerOf(s, a) in first
    ensures var k := if a in s.table then s.table[a] else OVERFLOW;
            var s' := Charge(s, k, OwnerOf(s, a), need, needBytes);
            Shaped(s') && AllWithin(c, s', l, now, first)
  {
    var k := if a in s.table then s.table[a] else OVERFLOW;
    var s' := Charge(s, k, OwnerOf(s, a), need, needBytes);
    forall o ensures Within(c, s', o, l, now, first) {
      ChargeWithinAt(c, s, a, need, needBytes, l, now, first, o);
    }
  }

  lemma SettleWithin(c: Caps, s: State, i: nat, deliveries: int, bytes: int, l: Limit, clock: real, first: map<Owner, real>)
    requires Positive(c) && Good(c, s, clock) && AllWithin(c, s, l, clock, first)
    ensures AllWithin(c, Settle(c, s, i, deliveries, bytes), l, clock, first)
  {
    if i < |s.tickets| && !s.tickets[i].done {
      var s' := Settle(c, s, i, deliveries, bytes);
      var t := s.tickets[i];
      assert Reachable(s, t);
      forall o ensures Within(c, s', o, l, clock, first) {
        assert Within(c, s, o, l, clock, first);
        ChargedUpdate(s.tickets, i, s'.tickets[i], o, l);
        if o != t.owner && o.Own? && o.a in s.table {
          assert s.table[o.a] != t.bk;
        }
      }
    }
  }

  lemma StepWithin(c: Caps, max: nat, w: World, e: Event, l: Limit)
    requires Positive(c) && Good(c, w.s, w.clock) && |w.s.table| <= max && OnTime(w, e)
    requires AllWithin(c, w.s, l, w.clock, w.first)
    ensures var w' := Next(c, max, w, e); AllWithin(c, w'.s, l, w'.clock, w'.first)
  {
    if e.Settling? {
      SettleWithin(c, w.s, e.i, e.deliveries, e.bytes, l, w.clock, w.first);
    } else {
      var s2, k, need, needBytes := ReserveParts(c, max, w.s, e);
      RouteWithin(c, max, w.s, e, l, w.clock, w.first);
      var (s1, j) := Route(c, max, w.s, e.a, e.order, e.now);
      TouchWithin(c, s1, k, l, e.now, FirstAfter(w.first, OwnerOf(s1, e.a), e.now));
      ChargeWithin(c, s2, e.a, need, needBytes, l, e.now, FirstAfter(w.first, OwnerOf(s1, e.a), e.now));
    }
  }

  lemma {:induction false} RunWithin(c: Caps, max: nat, clock: real, es: seq<Event>, l: Limit)
    requires Positive(c) && Run(c, max, Start(c, clock), es, false)
    ensures var w := Exec(c, max, Start(c, clock), es); AllWithin(c, w.s, l, w.clock, w.first)
  {
    if es != [] {
      RunWithin(c, max, clock, es[..|es| - 1], l);
      RunGood(c, max, clock, es[..|es| - 1], false);
      StepWithin(c, max, Exec(c, max, Start(c, clock), es[..|es| - 1]), es[|es| - 1], l);
    }
  }

  predicate Admits(c: Caps, max: nat, w: World, e: Event)
    requires Positive(c) && Shaped(w.s)
  {
    e.Reserving? && OnTime(w, e)
    && Reserve(c, max, w.s, e.a, e.deliveries, e.bytes, e.now, e.order).1.Admitted?
  }

  /** All that o was charged fits one full window plus the refill since it was
      first charged. */
  predicate FitsWindow(c: Caps, w: World, o: Owner, l: Limit) {
    o in w.first && Charged(w.s.tickets, o, l) <= Cap(c, l) + Gain(Cap(c, l), Period(l), w.clock - w.first[o])
  }

  /** At every admission, all an owner has been charged since it was first
      charged (an account across evictions, or the overflow bucket) is at most
      one full window plus the refill rate times that time, for deliveries and
      for bytes, whatever is settled when and for how much. */
  lemma ChargesAreBounded(c: Caps, max: nat, clock: real, es: seq<Event>, e: Event, l: Limit)
    requires Positive(c) && Run(c, max, Start(c, clock), es, false)
    requires Admits(c, max, Exec(c, max, Start(c, clock), es), e)
    ensures var w' := Next(c, max, Exec(c, max, Start(c, clock), es), e);
            FitsWindow(c, w', OwnerOf(w'.s, e.a), l)
  {
    RunWithin(c, max, clock, es, l);
    RunGood(c, max, clock, es, false);
    AdmittedWithin(c, max, Exec(c, max, Start(c, clock), es), e, l);
  }

  lemma AdmittedWithin(c: Caps, max: nat, w: World, e: Event, l: Limit)
    requires Positive(c) && Good(c, w.s, w.clock) && |w.s.table| <= max && AllWithin(c, w.s, l, w.clock, w.first)
    requires Admits(c, max, w, e)
    ensures var w' := Next(c, max, w, e); FitsWindow(c, w', OwnerOf(w'.s, e.a), l)
  {
    StepWithin(c, max, w, e, l);
    AdmittedBalance(c, max, w, e, l);
    NoDebtFits(c, Next(c, max, w, e), OwnerOf(Next(c, max, w, e).s, e.a), l);
  }

  lemma NoDebtFits(c: Caps, w: World, o: Owner, l: Limit)
    requires Positive(c) && Shaped(w.s) && AllWithin(c, w.s, l, w.clock, w.first)
    requires Present(w.s, o) && Stored(c, w.s, o, w.clock).updated == w.clock && Balance(Stored(c, w.s, o, w.clock), l) >= 0.0
    ensures FitsWindow(c, w, o, l)
  {
    assert Within(c, w.s, o, l, w.clock, w.first);
  }

  /** An admitted reservation leaves no debt and a bucket that is up to date. */
  lemma AdmittedBalance(c: Caps, max: nat, w: World, e: Event, l: Limit)
    requires Positive(c) && Good(c, w.s, w.clock) && |w.s.table| <= max && Admits(c, max, w, e)
    ensures var s := Next(c, max, w, e).s;
            var b := Stored(c, s, OwnerOf(s, e.a), e.now);
            Balance(b, l) >= 0.0 && b.updated == e.now && Present(s, OwnerOf(s, e.a))
  {
    var s2, k, need, needBytes := ReserveParts(c, max, w.s, e);
    RoutedGood(c, max, w.s, e, w.clock);
    var s := Next(c, max, w, e).s;
    assert s == Charge(s2, k, OwnerOf(s2, e.a), need, needBytes);
    assert Stored(c, s, OwnerOf(s, e.a), e.now) == Debit(s2.heap[k], need, needBytes);
  }
}
