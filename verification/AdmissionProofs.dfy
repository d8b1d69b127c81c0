/**
 The bounded budget table agrees with one that never evicts, and no account
 gets more than one window plus its refill, however entries come and go.
 */
module AdmissionProofs {
  import opened Admission

  datatype Event =
    | Reserving(a: Account, deliveries: int, bytes: int, now: real, order: seq<Account>)
    | Settling(i: nat, deliveries: int, bytes: int)

  /** The state, the latest time seen, the unbounded table that is charged with
      every reservation answered from an account's own entry, and when each
      owner was first charged. */
  datatype World = World(s: State, clock: real, ref: map<Account, Bucket>, first: map<Owner, real>)

  function Start(c: Caps, clock: real): World { World(Initial(c), clock, map[], map[]) }

  // The table that never evicts

  function RefBucket(c: Caps, ref: map<Account, Bucket>, a: Account, now: real): Bucket {
    Refill(c, if a in ref then ref[a] else Fresh(c, now), now)
  }

  function RefReserve(c: Caps, ref: map<Account, Bucket>, a: Account, need: real, needBytes: real, now: real)
    : (map<Account, Bucket>, Answer)
    requires Positive(c)
  {
    var b := RefBucket(c, ref, a, now);
    var answer := Decide(c, b, need, needBytes);
    (ref[a := if answer.Admitted? then Debit(b, need, needBytes) else b], answer)
  }

  function RefSettle(c: Caps, ref: map<Account, Bucket>, t: Ticket, deliveries: real, bytes: real): map<Account, Bucket> {
    if t.owner.Own? && t.owner.a in ref then ref[t.owner.a := Credit(c, ref[t.owner.a], deliveries, bytes)] else ref
  }

  // Runs

  function OwnerOf(s: State, a: Account): Owner { if a in s.table then Own(a) else Shared }

  function Next(c: Caps, max: nat, w: World, e: Event): (w': World)
    requires Positive(c) && Shaped(w.s)
    ensures Shaped(w'.s)
  {
    match e
    case Reserving(a, d, b, now, order) =>
      var (s, answer) := Reserve(c, max, w.s, a, d, b, now, order);
      var o := OwnerOf(s, a);
      World(s, now,
            if o.Own? then RefReserve(c, w.ref, a, Need(d, 1), Need(b, 0), now).0 else w.ref,
            if o in w.first then w.first else w.first[o := now])
    case Settling(i, d, b) =>
      var ref := if i < |w.s.tickets| && !w.s.tickets[i].done then
                   var t := w.s.tickets[i];
                   RefSettle(c, w.ref, t, t.deliveries - Need(d, 0), t.bytes - Need(b, 0))
                 else w.ref;
      w.(s := Settle(c, w.s, i, d, b), ref := ref)
  }

  predicate OnTime(w: World, e: Event) { e.Reserving? ==> w.clock <= e.now }

  /** The settlement uses no more than its ticket reserved. */
  predicate Within(w: World, e: Event) {
    e.Settling? && e.i < |w.s.tickets| ==>
      Need(e.deliveries, 0) <= w.s.tickets[e.i].deliveries && Need(e.bytes, 0) <= w.s.tickets[e.i].bytes
  }

  function Exec(c: Caps, max: nat, w: World, es: seq<Event>): (w': World)
    requires Positive(c) && Shaped(w.s)
    ensures Shaped(w'.s)
  {
    if es == [] then w else Next(c, max, Exec(c, max, w, es[..|es| - 1]), es[|es| - 1])
  }

  /** Clock values do not go backwards; if thrifty, settlements stay within
      their reservations. */
  predicate Run(c: Caps, max: nat, w: World, es: seq<Event>, thrifty: bool)
    requires Positive(c) && Shaped(w.s)
  {
    es == [] ||
    var before := Exec(c, max, w, es[..|es| - 1]);
    var e := es[|es| - 1];
    Run(c, max, w, es[..|es| - 1], thrifty) && OnTime(before, e) && (thrifty ==> Within(before, e))
  }

  // Tickets and outstanding counts

  function Open(ts: seq<Ticket>, k: BucketId): nat {
    if ts == [] then 0
    else Open(ts[..|ts| - 1], k) + if ts[|ts| - 1].bk == k && !ts[|ts| - 1].done then 1 else 0
  }

  lemma {:induction false} OpenSome(ts: seq<Ticket>, i: nat)
    requires i < |ts| && !ts[i].done
    ensures Open(ts, ts[i].bk) > 0
  {
    if i < |ts| - 1 {
      OpenSome(ts[..|ts| - 1], i);
    }
  }

  lemma {:induction false} OpenNone(ts: seq<Ticket>, k: BucketId)
    requires forall i :: 0 <= i < |ts| ==> ts[i].bk != k
    ensures Open(ts, k) == 0
  {
    if ts != [] {
      OpenNone(ts[..|ts| - 1], k);
    }
  }

  lemma {:induction false} OpenClose(ts: seq<Ticket>, i: nat, t: Ticket, k: BucketId)
    requires i < |ts| && !ts[i].done && t.done && t.bk == ts[i].bk
    ensures Open(ts[i := t], k) == Open(ts, k) - if ts[i].bk == k then 1 else 0
  {
    var n := |ts| - 1;
    if i < n {
      assert ts[i := t][..n] == ts[..n][i := t];
      OpenClose(ts[..n], i, t, k);
    } else {
      assert ts[i := t][..n] == ts[..n];
    }
  }

  /** An unsettled ticket's bucket is the one its owner is charged to next. */
  predicate Reachable(s: State, t: Ticket) {
    t.done || match t.owner
              case Own(a) => a in s.table && s.table[a] == t.bk
              case Shared => t.bk == OVERFLOW
  }

  ghost predicate Counted(s: State) {
    && (forall k :: k in s.heap ==> s.heap[k].outstanding == Open(s.tickets, k))
    && (forall i :: 0 <= i < |s.tickets| ==> Reachable(s, s.tickets[i]) && s.tickets[i].bk < s.next)
  }

  predicate Capped(c: Caps, b: Bucket) { b.deliveries <= c.deliveriesPerMinute && b.bytes <= c.bytesPerHour }

  ghost predicate Good(c: Caps, s: State, clock: real) {
    && Shaped(s) && Counted(s)
    && (forall k :: k in s.heap ==> Capped(c, s.heap[k]))
    && (forall k :: k in s.heap && (k != OVERFLOW || s.sharedStarted) ==> s.heap[k].updated <= clock)
  }

  /** What account a's own entry offers at time t; a missing entry is as good
      as a full one. */
  function View(c: Caps, s: State, a: Account, t: real): Bucket
    requires Shaped(s)
  {
    Refill(c, if a in s.table then s.heap[s.table[a]] else Fresh(c, t), t)
  }

  ghost predicate SameViews(c: Caps, s: State, s': State, t: real)
    requires Shaped(s) && Shaped(s')
  {
    forall a :: View(c, s', a, t) == View(c, s, a, t)
  }

  lemma RefillCaps(c: Caps, b: Bucket, now: real)
    requires Capped(c, b)
    ensures Capped(c, Refill(c, b, now)) && Refill(c, b, now).outstanding == b.outstanding
    ensures b.updated <= now ==> Refill(c, b, now).updated == now
  {
  }

  // Routing: evicting and adding change no account's view

  lemma TouchGood(c: Caps, s: State, k: BucketId, now: real, clock: real)
    requires Positive(c) && Good(c, s, clock) && clock <= now && k in s.heap && (k != OVERFLOW || s.sharedStarted)
    ensures Good(c, Touch(c, s, k, now), now)
    ensures SameViews(c, s, Touch(c, s, k, now), now)
  {
    var s' := Touch(c, s, k, now);
    forall j | j in s'.heap
      ensures Capped(c, s'.heap[j]) && s'.heap[j].outstanding == s.heap[j].outstanding
      ensures j != OVERFLOW || s'.sharedStarted ==> s'.heap[j].updated <= now
    {
      RefillCaps(c, s.heap[j], now);
    }
    forall i | 0 <= i < |s'.tickets| ensures Reachable(s', s'.tickets[i]) {
      assert Reachable(s, s.tickets[i]);
    }
    forall a ensures View(c, s', a, now) == View(c, s, a, now) {
      RefillTwice(c, s.heap[k], now, now);
    }
  }

  lemma EvictGood(c: Caps, s: State, a: Account, now: real)
    requires Positive(c) && Good(c, s, now) && a in s.table && Evictable(c, s.heap[s.table[a]])
    requires s.heap[s.table[a]].updated == now
    ensures var s' := s.(table := s.table - {a}, heap := s.heap - {s.table[a]});
            Good(c, s', now) && SameViews(c, s, s', now)
  {
    var k := s.table[a];
    var s' := s.(table := s.table - {a}, heap := s.heap - {k});
    forall i | 0 <= i < |s'.tickets| ensures Reachable(s', s'.tickets[i]) {
      assert Reachable(s, s.tickets[i]);
      if !s.tickets[i].done {
        OpenSome(s.tickets, i);
      }
    }
    assert s.heap[k] == Fresh(c, now);
    forall b ensures View(c, s', b, now) == View(c, s, b, now) {
      if b in s.table && b != a {
        assert s.table[b] != k;
      }
    }
  }

  lemma SweepUnfold(c: Caps, s: State, order: seq<Account>, n: nat, now: real, limit: nat)
      returns (s1: State, stop: bool, rest: nat)
    requires Shaped(s) && n < |order| && limit > 0
    ensures s1 == if order[n] in s.table then Look(c, s, order[n], now).0 else s
    ensures Shaped(s1) && (stop <==> order[n] in s.table && Look(c, s, order[n], now).1)
    ensures stop ==> Sweep(c, s, order, n, now, limit).0 == s1
    ensures !stop ==> Sweep(c, s, order, n, now, limit) == Sweep(c, s1, order, n + 1, now, rest)
  {
    s1, stop, rest := s, false, limit;
    if order[n] in s.table {
      s1, stop, rest := Look(c, s, order[n], now).0, Look(c, s, order[n], now).1, limit - 1;
    }
  }

  lemma {:induction false} SweepGood(c: Caps, s: State, order: seq<Account>, n: nat, now: real, limit: nat, clock: real)
    requires Positive(c) && Good(c, s, clock) && clock <= now
    ensures Good(c, Sweep(c, s, order, n, now, limit).0, now)
    ensures SameViews(c, s, Sweep(c, s, order, n, now, limit).0, now)
    decreases |order| - n
  {
    if n < |order| && limit > 0 {
      var s1, stop, rest := SweepUnfold(c, s, order, n, now, limit);
      if order[n] in s.table {
        LookGood(c, s, order[n], now, clock);
      }
      if !stop {
        SweepGood(c, s1, order, n + 1, now, rest, now);
      }
    }
  }

  lemma LookGood(c: Caps, s: State, a: Account, now: real, clock: real)
    requires Positive(c) && Good(c, s, clock) && clock <= now && a in s.table
    ensures Good(c, Look(c, s, a, now).0, now) && SameViews(c, s, Look(c, s, a, now).0, now)
  {
    var k := s.table[a];
    TouchGood(c, s, k, now, clock);
    RefillCaps(c, s.heap[k], now);
    if Evictable(c, Touch(c, s, k, now).heap[k]) {
      EvictGood(c, Touch(c, s, k, now), a, now);
    }
  }

  lemma AddGood(c: Caps, s: State, a: Account, now: real)
    requires Good(c, s, now) && a !in s.table
    ensures Good(c, Add(c, s, a, now), now)
    ensures SameViews(c, s, Add(c, s, a, now), now)
  {
    OpenNone(s.tickets, s.next);
    var s' := Add(c, s, a, now);
    forall i | 0 <= i < |s'.tickets| ensures Reachable(s', s'.tickets[i]) {
      assert Reachable(s, s.tickets[i]);
    }
  }

  lemma RouteGood(c: Caps, max: nat, s: State, a: Account, order: seq<Account>, now: real, clock: real)
    requires Positive(c) && Good(c, s, clock) && clock <= now && |s.table| <= max
    ensures var (s', k) := Route(c, max, s, a, order, now);
            && Good(c, s', now) && |s'.table| <= max && (k != OVERFLOW || s'.sharedStarted)
            && SameViews(c, s, s', now)
  {
    if a in s.table {
    } else if |s.table| < max {
      AddGood(c, s, a, now);
    } else {
      var (s1, ok) := Sweep(c, s, order, 0, now, SAMPLE);
      SweepGood(c, s, order, 0, now, SAMPLE, clock);
      if ok {
        AddGood(c, s1, a, now);
      } else if !s1.sharedStarted {
        SharedGood(c, s1, now);
      }
    }
  }

  lemma SharedGood(c: Caps, s: State, now: real)
    requires Good(c, s, now) && !s.sharedStarted
    ensures var s' := s.(heap := s.heap[OVERFLOW := s.heap[OVERFLOW].(updated := now)], sharedStarted := true);
            Good(c, s', now) && SameViews(c, s, s', now)
  {
    var s' := s.(heap := s.heap[OVERFLOW := s.heap[OVERFLOW].(updated := now)], sharedStarted := true);
    forall i | 0 <= i < |s'.tickets| ensures Reachable(s', s'.tickets[i]) {
      assert Reachable(s, s.tickets[i]);
    }
  }

  // Charging and settling

  /** The admitted reservation: bucket k is debited and a ticket issued. */
  function Charge(s: State, k: BucketId, o: Owner, need: real, needBytes: real): State
    requires k in s.heap
  {
    s.(heap := s.heap[k := Debit(s.heap[k], need, needBytes)],
       tickets := s.tickets + [Ticket(o, k, need, needBytes, false, 0.0, 0.0)])
  }

  lemma ChargeGood(c: Caps, s: State, k: BucketId, o: Owner, need: real, needBytes: real, now: real)
    requires Good(c, s, now) && k in s.heap && need >= 0.0 && needBytes >= 0.0
    requires match o case Own(a) => a in s.table && s.table[a] == k case Shared => k == OVERFLOW
    ensures Good(c, Charge(s, k, o, need, needBytes), now)
  {
    var s' := Charge(s, k, o, need, needBytes);
    var n := |s.tickets|;
    assert s'.tickets[..n] == s.tickets;
    forall j | j in s'.heap ensures s'.heap[j].outstanding == Open(s'.tickets, j) {
    }
    forall i | 0 <= i < |s'.tickets| ensures Reachable(s', s'.tickets[i]) && s'.tickets[i].bk < s'.next {
      if i < n {
        assert Reachable(s, s.tickets[i]);
      }
    }
  }

  lemma SettleGood(c: Caps, s: State, i: nat, deliveries: int, bytes: int, now: real)
    requires Good(c, s, now)
    ensures Good(c, Settle(c, s, i, deliveries, bytes), now)
    ensures i < |s.tickets| && !s.tickets[i].done ==> s.tickets[i].bk in s.heap
  {
    if i < |s.tickets| && !s.tickets[i].done {
      var s' := Settle(c, s, i, deliveries, bytes);
      var t := s.tickets[i];
      assert Reachable(s, t);
      OpenSome(s.tickets, i);
      forall j | j in s'.heap ensures s'.heap[j].outstanding == Open(s'.tickets, j) {
        OpenClose(s.tickets, i, s'.tickets[i], j);
      }
      forall n | 0 <= n < |s'.tickets| ensures Reachable(s', s'.tickets[n]) && s'.tickets[n].bk < s'.next {
        assert Reachable(s, s.tickets[n]);
      }
    }
  }

  /** Reserve, taken apart: route, refill, decide, charge. */
  lemma ReserveParts(c: Caps, max: nat, s: State, e: Event) returns (s2: State, k: BucketId, need: real, needBytes: real)
    requires Positive(c) && Shaped(s) && e.Reserving?
    ensures k in s2.heap && Shaped(s2) && need == Need(e.deliveries, 1) && needBytes == Need(e.bytes, 0)
    ensures k == if e.a in s2.table then s2.table[e.a] else OVERFLOW
    ensures var (s1, j) := Route(c, max, s, e.a, e.order, e.now); j == k && s2 == Touch(c, s1, k, e.now)
    ensures var (s', answer) := Reserve(c, max, s, e.a, e.deliveries, e.bytes, e.now, e.order);
            && answer == Decide(c, s2.heap[k], need, needBytes)
            && s' == if answer.Admitted? then Charge(s2, k, OwnerOf(s2, e.a), need, needBytes) else s2
  {
    var (s1, j) := Route(c, max, s, e.a, e.order, e.now);
    k := j;
    s2 := Touch(c, s1, k, e.now);
    need, needBytes := Need(e.deliveries, 1), Need(e.bytes, 0);
  }

  lemma RoutedGood(c: Caps, max: nat, s: State, e: Event, clock: real)
    requires Positive(c) && Good(c, s, clock) && |s.table| <= max && e.Reserving? && clock <= e.now
    ensures var (s1, k) := Route(c, max, s, e.a, e.order, e.now);
            var s2 := Touch(c, s1, k, e.now);
            Good(c, s2, e.now) && |s2.table| <= max && SameViews(c, s, s2, e.now) && s2.heap[k].updated == e.now
  {
    var (s1, k) := Route(c, max, s, e.a, e.order, e.now);
    RouteGood(c, max, s, e.a, e.order, e.now, clock);
    TouchGood(c, s1, k, e.now, e.now);
    RefillCaps(c, s1.heap[k], e.now);
  }

  lemma StepGood(c: Caps, max: nat, w: World, e: Event)
    requires Positive(c) && Good(c, w.s, w.clock) && |w.s.table| <= max && OnTime(w, e)
    ensures var w' := Next(c, max, w, e); Good(c, w'.s, w'.clock) && |w'.s.table| <= max
  {
    if e.Settling? {
      SettleGood(c, w.s, e.i, e.deliveries, e.bytes, w.clock);
    } else {
      var s2, k, need, needBytes := ReserveParts(c, max, w.s, e);
      RoutedGood(c, max, w.s, e, w.clock);
      ChargeGood(c, s2, k, OwnerOf(s2, e.a), need, needBytes, e.now);
    }
  }

  lemma {:induction false} RunGood(c: Caps, max: nat, clock: real, es: seq<Event>, thrifty: bool)
    requires Positive(c) && Run(c, max, Start(c, clock), es, thrifty)
    ensures var w := Exec(c, max, Start(c, clock), es); Good(c, w.s, w.clock) && |w.s.table| <= max
  {
    if es != [] {
      RunGood(c, max, clock, es[..|es| - 1], thrifty);
      StepGood(c, max, Exec(c, max, Start(c, clock), es[..|es| - 1]), es[|es| - 1]);
    }
  }

  // Eviction is unobservable

  /** Both tables offer every account the same at the latest time. */
  ghost predicate Agree(c: Caps, w: World)
    requires Shaped(w.s)
  {
    && (forall a :: View(c, w.s, a, w.clock) == RefBucket(c, w.ref, a, w.clock))
    && (forall a :: a in w.s.table ==> a in w.ref)
    && (forall a :: a in w.ref ==> w.ref[a].updated <= w.clock)
  }

  lemma LaterBucket(c: Caps, b: Bucket, present: bool, t: real, t': real)
    requires Positive(c) && t <= t'
    ensures Refill(c, if present then b else Fresh(c, t'), t') ==
            Refill(c, Refill(c, if present then b else Fresh(c, t), t), t')
  {
    if present {
      RefillTwice(c, b, t, t');
    } else {
      GainPositive(c.deliveriesPerMinute, MINUTE, t' - t);
      GainPositive(c.bytesPerHour, HOUR, t' - t);
    }
  }

  lemma AgreeLater(c: Caps, w: World, t: real)
    requires Positive(c) && Shaped(w.s) && Agree(c, w) && w.clock <= t
    ensures Agree(c, w.(clock := t))
  {
    forall a ensures View(c, w.s, a, t) == RefBucket(c, w.ref, a, t) {
      var b := if a in w.s.table then w.s.heap[w.s.table[a]] else Fresh(c, t);
      var r := if a in w.ref then w.ref[a] else Fresh(c, t);
      LaterBucket(c, b, a in w.s.table, w.clock, t);
      LaterBucket(c, r, a in w.ref, w.clock, t);
      assert View(c, w.s, a, w.clock) == RefBucket(c, w.ref, a, w.clock);
    }
  }

  /** Charging account o's entry and the reference alike keeps them alike. */
  lemma ChargeAgrees(c: Caps, s: State, ref: map<Account, Bucket>, o: Account, need: real, needBytes: real, now: real, a: Account)
    requires Positive(c) && Shaped(s)
    requires var k := if o in s.table then s.table[o] else OVERFLOW; s.heap[k].updated == now
    requires View(c, s, a, now) == RefBucket(c, ref, a, now) && View(c, s, o, now) == RefBucket(c, ref, o, now)
    ensures var k := if o in s.table then s.table[o] else OVERFLOW;
            var answer := Decide(c, s.heap[k], need, needBytes);
            var s' := if answer.Admitted? then Charge(s, k, OwnerOf(s, o), need, needBytes) else s;
            var (ref', refAnswer) := RefReserve(c, ref, o, need, needBytes, now);
            && Shaped(s')
            && (o in s.table ==> answer == refAnswer && View(c, s', a, now) == RefBucket(c, ref', a, now))
            && (o !in s.table ==> View(c, s', a, now) == RefBucket(c, ref, a, now))
  {
  }

  /** Routing and refilling keep the agreement, at the time of the request. */
  lemma RoutedAgrees(c: Caps, max: nat, w: World, e: Event, a: Account)
    requires Positive(c) && Good(c, w.s, w.clock) && |w.s.table| <= max && Agree(c, w) && e.Reserving? && OnTime(w, e)
    ensures var (s1, k) := Route(c, max, w.s, e.a, e.order, e.now);
            var s2 := Touch(c, s1, k, e.now);
            Shaped(s2) && s2.heap[k].updated == e.now && View(c, s2, a, e.now) == RefBucket(c, w.ref, a, e.now)
  {
    AgreeLater(c, w, e.now);
    RoutedGood(c, max, w.s, e, w.clock);
    var (s1, k) := Route(c, max, w.s, e.a, e.order, e.now);
    assert View(c, Touch(c, s1, k, e.now), a, e.now) == View(c, w.s, a, e.now);
    assert View(c, w.s, a, e.now) == RefBucket(c, w.ref, a, e.now);
  }

  lemma AgreeReserve(c: Caps, max: nat, w: World, e: Event)
    requires Positive(c) && Good(c, w.s, w.clock) && |w.s.table| <= max && Agree(c, w) && e.Reserving? && OnTime(w, e)
    ensures Agree(c, Next(c, max, w, e))
    ensures e.a in Next(c, max, w, e).s.table ==>
              Reserve(c, max, w.s, e.a, e.deliveries, e.bytes, e.now, e.order).1 ==
              RefReserve(c, w.ref, e.a, Need(e.deliveries, 1), Need(e.bytes, 0), e.now).1
  {
    var s2, k, need, needBytes := ReserveParts(c, max, w.s, e);
    var w' := Next(c, max, w, e);
    RoutedAgrees(c, max, w, e, e.a);
    ChargeAgrees(c, s2, w.ref, e.a, need, needBytes, e.now, e.a);
    forall a ensures View(c, w'.s, a, e.now) == RefBucket(c, w'.ref, a, e.now) {
      RoutedAgrees(c, max, w, e, a);
      ChargeAgrees(c, s2, w.ref, e.a, need, needBytes, e.now, a);
    }
    forall a | a in w'.s.table ensures a in w'.ref {
      TableGrows(c, max, w.s, e, a);
    }
  }

  /** Routing adds no entry but the account's own. */
  lemma TableGrows(c: Caps, max: nat, s: State, e: Event, a: Account)
    requires Positive(c) && Shaped(s) && e.Reserving?
    ensures a in Route(c, max, s, e.a, e.order, e.now).0.table ==> a == e.a || a in s.table
  {
  }

  lemma SettleAgrees(c: Caps, s: State, ref: map<Account, Bucket>, i: nat, deliveries: int, bytes: int, now: real, a: Account)
    requires Positive(c) && Shaped(s) && i < |s.tickets| && !s.tickets[i].done && Reachable(s, s.tickets[i])
    requires Need(deliveries, 0) <= s.tickets[i].deliveries && Need(bytes, 0) <= s.tickets[i].bytes
    requires View(c, s, a, now) == RefBucket(c, ref, a, now) && forall b :: b in s.table ==> b in ref
    ensures var t := s.tickets[i];
            View(c, Settle(c, s, i, deliveries, bytes), a, now) ==
            RefBucket(c, RefSettle(c, ref, t, t.deliveries - Need(deliveries, 0), t.bytes - Need(bytes, 0)), a, now)
  {
    var t := s.tickets[i];
    var x, y := t.deliveries - Need(deliveries, 0), t.bytes - Need(bytes, 0);
    if t.owner == Own(a) {
      CreditRefill(c, s.heap[t.bk], now, x, y);
      CreditRefill(c, ref[a], now, x, y);
    } else if a in s.table {
      assert s.table[a] != t.bk;
    }
  }

  lemma AgreeSettle(c: Caps, w: World, e: Event)
    requires Positive(c) && Good(c, w.s, w.clock) && Agree(c, w) && e.Settling? && Within(w, e)
    ensures Agree(c, Next(c, 0, w, e))
  {
    if e.i < |w.s.tickets| && !w.s.tickets[e.i].done {
      assert Reachable(w.s, w.s.tickets[e.i]);
      var w' := Next(c, 0, w, e);
      forall a ensures View(c, w'.s, a, w.clock) == RefBucket(c, w'.ref, a, w.clock) {
        SettleAgrees(c, w.s, w.ref, e.i, e.deliveries, e.bytes, w.clock, a);
      }
    }
  }

  lemma {:induction false} RunAgrees(c: Caps, max: nat, clock: real, es: seq<Event>)
    requires Positive(c) && Run(c, max, Start(c, clock), es, true)
    ensures Agree(c, Exec(c, max, Start(c, clock), es))
  {
    if es != [] {
      var n := |es| - 1;
      var w := Exec(c, max, Start(c, clock), es[..n]);
      RunAgrees(c, max, clock, es[..n]);
      RunGood(c, max, clock, es[..n], true);
      if es[n].Reserving? {
        AgreeReserve(c, max, w, es[n]);
      } else {
        AgreeSettle(c, w, es[n]);
      }
    }
  }

  /** After any run whose settlements stay within their reservations, a
      reservation answered from the account's own entry gets the answer, and
      the wait, that a table which never evicts would give. */
  lemma EvictionIsUnobservable(c: Caps, max: nat, clock: real, es: seq<Event>, e: Event)
    requires Positive(c) && Run(c, max, Start(c, clock), es, true)
    requires e.Reserving? && OnTime(Exec(c, max, Start(c, clock), es), e)
    requires e.a in Next(c, max, Exec(c, max, Start(c, clock), es), e).s.table
    ensures var w := Exec(c, max, Start(c, clock), es);
            Reserve(c, max, w.s, e.a, e.deliveries, e.bytes, e.now, e.order).1 ==
            RefReserve(c, w.ref, e.a, Need(e.deliveries, 1), Need(e.bytes, 0), e.now).1
  {
    RunAgrees(c, max, clock, es);
    RunGood(c, max, clock, es, true);
    AgreeReserve(c, max, Exec(c, max, Start(c, clock), es), e);
  }

  /** In every run the table stays within its bound, and every unsettled ticket
      still points at the bucket its owner is charged to. */
  lemma BoundedAndReachable(c: Caps, max: nat, clock: real, es: seq<Event>)
    requires Positive(c) && Run(c, max, Start(c, clock), es, false)
    ensures var s := Exec(c, max, Start(c, clock), es).s;
            |s.table| <= max && forall i :: 0 <= i < |s.tickets| ==> Reachable(s, s.tickets[i])
  {
    RunGood(c, max, clock, es, false);
  }
}
