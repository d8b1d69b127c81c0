/**
 When the write budget says yes: a request is refused exactly when some stretch
 of its account's history has charged too much, a refusal's wait is exactly how
 long the same request has to wait, and a new account gets its full window.
 */
module AdmissionAnswers {
  import opened Admission
  import opened AdmissionProofs
  import opened AdmissionOveruse

  // A refused request later

  lemma Scales(x: real, y: real, f: real)
    requires f > 0.0
    ensures x >= y <==> x * f >= y * f
  {
    if x >= y {
      assert (x - y) * f >= 0.0;
    } else {
      assert (y - x) * f > 0.0;
    }
  }

  /** A balance has grown to a need exactly after the wait for the shortfall. */
  lemma GrownEnough(cap: real, period: real, balance: real, need: real, t: real)
    requires cap > 0.0 && period > 0.0
    ensures balance + Gain(cap, period, t) >= need <==> t >= (need - balance) / cap * period
  {
    var q, z := (need - balance) / cap, t / period;
    assert q * cap == need - balance && z * period == t;
    Scales(z, q, cap);
    Scales(z, q, period);
  }

  predicate WithinCaps(c: Caps, need: real, needBytes: real) { need <= c.deliveriesPerMinute && needBytes <= c.bytesPerHour }

  lemma BalanceLater(cap: real, period: real, balance: real, need: real, t: real)
    requires cap > 0.0 && period > 0.0 && balance <= cap && t >= 0.0
    ensures Grow(cap, period, balance, t) >= need <==> need <= cap && t >= Wait(need, balance, cap, period)
  {
    GrownEnough(cap, period, balance, need, t);
    GainPositive(cap, period, t);
  }

  /** The same request of the same bucket at a later time. */
  lemma LaterAnswer(c: Caps, b: Bucket, need: real, needBytes: real, t: real)
    requires Positive(c) && Capped(c, b) && b.updated <= t
    ensures Decide(c, Refill(c, b, t), need, needBytes).Admitted? <==>
            && WithinCaps(c, need, needBytes)
            && t - b.updated >= Wait(need, b.deliveries, c.deliveriesPerMinute, MINUTE)
            && t - b.updated >= Wait(needBytes, b.bytes, c.bytesPerHour, HOUR)
  {
    BalanceLater(c.deliveriesPerMinute, MINUTE, b.deliveries, need, t - b.updated);
    BalanceLater(c.bytesPerHour, HOUR, b.bytes, needBytes, t - b.updated);
    NoWait(c.deliveriesPerMinute, MINUTE, b.deliveries, need);
    NoWait(c.bytesPerHour, HOUR, b.bytes, needBytes);
  }

  /** There is nothing to wait for exactly when the balance covers the need. */
  lemma NoWait(cap: real, period: real, balance: real, need: real)
    requires cap > 0.0 && period > 0.0
    ensures Wait(need, balance, cap, period) <= 0.0 <==> need <= balance
  {
    GrownEnough(cap, period, balance, need, 0.0);
    assert Gain(cap, period, 0.0) == 0.0;
  }

  /** A refusal's wait is the longer of the two, and at least a second. */
  lemma RefusalWaits(c: Caps, b: Bucket, need: real, needBytes: real)
    requires Positive(c) && Decide(c, b, need, needBytes).Refused?
    ensures var w := Max(Wait(need, b.deliveries, c.deliveriesPerMinute, MINUTE), Wait(needBytes, b.bytes, c.bytesPerHour, HOUR));
            w > 0.0 && Decide(c, b, need, needBytes).wait == Max(w, 1.0)
  {
    NoWait(c.deliveriesPerMinute, MINUTE, b.deliveries, need);
    NoWait(c.bytesPerHour, HOUR, b.bytes, needBytes);
  }

  // The same at the budget

  /** What a refused reservation leaves: the bucket it asked, refilled, and no ticket. */
  lemma RefusedLeaves(c: Caps, max: nat, s: State, e: Event, clock: real) returns (s2: State, k: BucketId)
    requires Positive(c) && Good(c, s, clock) && |s.table| <= max && e.Reserving? && clock <= e.now
    requires Reserve(c, max, s, e.a, e.deliveries, e.bytes, e.now, e.order).1.Refused?
    ensures k in s2.heap && Reserve(c, max, s, e.a, e.deliveries, e.bytes, e.now, e.order)
            == (s2, Decide(c, s2.heap[k], Need(e.deliveries, 1), Need(e.bytes, 0)))
    ensures Good(c, s2, e.now) && |s2.table| <= max && k == (if e.a in s2.table then s2.table[e.a] else OVERFLOW)
    ensures s2.heap[k].updated == e.now && Capped(c, s2.heap[k]) && (k == OVERFLOW ==> s2.sharedStarted)
  {
    var need, needBytes;
    s2, k, need, needBytes := ReserveParts(c, max, s, e);
    RoutedGood(c, max, s, e, clock);
    RouteGood(c, max, s, e.a, e.order, e.now, clock);
  }

  lemma AskOwn(c: Caps, max: nat, s: State, e: Event)
    requires Positive(c) && Shaped(s) && e.Reserving? && e.a in s.table
    ensures Reserve(c, max, s, e.a, e.deliveries, e.bytes, e.now, e.order).1
            == Decide(c, Refill(c, s.heap[s.table[e.a]], e.now), Need(e.deliveries, 1), Need(e.bytes, 0))
  {
    assert Route(c, max, s, e.a, e.order, e.now) == (s, s.table[e.a]);
  }

  /** Asking again from an account's own entry, with nothing in between, at any
      time t: it is admitted exactly when it is within the caps and both balances
      have had their wait. So never before the wait the refusal named, when that is
      more than the one second it names at least, and always from then on. */
  lemma AskAgain(c: Caps, max: nat, s: State, e: Event, clock: real, t: real, order: seq<Account>)
    requires Positive(c) && Good(c, s, clock) && |s.table| <= max && e.Reserving? && clock <= e.now <= t
    requires Reserve(c, max, s, e.a, e.deliveries, e.bytes, e.now, e.order).1.Refused?
    ensures
      var (s', refusal) := Reserve(c, max, s, e.a, e.deliveries, e.bytes, e.now, e.order);
      var again := Reserve(c, max, s', e.a, e.deliveries, e.bytes, t, order).1;
      && (t >= e.now + refusal.wait && WithinCaps(c, Need(e.deliveries, 1), Need(e.bytes, 0)) ==> again.Admitted?)
      && (e.a in s'.table && refusal.wait > 1.0 && t < e.now + refusal.wait ==> again.Refused?)
      && (e.a in s'.table && !WithinCaps(c, Need(e.deliveries, 1), Need(e.bytes, 0)) ==> again.Refused?)
  {
    var s2, k := RefusedLeaves(c, max, s, e, clock);
    var need, needBytes := Need(e.deliveries, 1), Need(e.bytes, 0);
    var later := Reserving(e.a, e.deliveries, e.bytes, t, order);
    RefusalWaits(c, s2.heap[k], need, needBytes);
    LaterAnswer(c, s2.heap[k], need, needBytes, t);
    if e.a in s2.table {
      AskOwn(c, max, s2, later);
    } else {
      AskShared(c, max, s2, later, e.now);
    }
  }

  /** Without an entry of its own the account gets a new, full one, or asks the
      overflow bucket as it has refilled. */
  lemma AskShared(c: Caps, max: nat, s: State, e: Event, clock: real)
    requires Positive(c) && Good(c, s, clock) && e.Reserving? && e.a !in s.table && clock <= e.now && s.sharedStarted
    ensures var answer := Reserve(c, max, s, e.a, e.deliveries, e.bytes, e.now, e.order).1;
      || answer == Decide(c, Fresh(c, e.now), Need(e.deliveries, 1), Need(e.bytes, 0))
      || answer == Decide(c, Refill(c, s.heap[OVERFLOW], e.now), Need(e.deliveries, 1), Need(e.bytes, 0))
  {
    SweepSparesShared(c, s, e.order, 0, e.now, SAMPLE);
    var (s1, ok) := Sweep(c, s, e.order, 0, e.now, SAMPLE);
  }

  lemma {:induction false} SweepSparesShared(c: Caps, s: State, order: seq<Account>, n: nat, now: real, limit: nat)
    requires Shaped(s)
    ensures OVERFLOW in Sweep(c, s, order, n, now, limit).0.heap
    ensures Sweep(c, s, order, n, now, limit).0.heap[OVERFLOW] == s.heap[OVERFLOW]
    decreases |order| - n
  {
    if n < |order| && limit > 0 {
      var s1, stop, rest := SweepUnfold(c, s, order, n, now, limit);
      if !stop {
        SweepSparesShared(c, s1, order, n + 1, now, rest);
      }
    }
  }

  /** A request within both caps is admitted when the account gets a new entry: a
      full window at once is allowed. */
  lemma NewAccountIsAdmitted(c: Caps, max: nat, s: State, e: Event, clock: real)
    requires Positive(c) && Good(c, s, clock) && |s.table| <= max && e.Reserving? && clock <= e.now && e.a !in s.table
    ensures var (s', answer) := Reserve(c, max, s, e.a, e.deliveries, e.bytes, e.now, e.order);
      && (|s.table| < max ==> e.a in s'.table)
      && (e.a in s'.table ==> (answer.Admitted? <==> WithinCaps(c, Need(e.deliveries, 1), Need(e.bytes, 0))))
  {
    var s2, k, need, needBytes := ReserveParts(c, max, s, e);
    assert e.a in s2.table ==> s2.heap[k] == Fresh(c, e.now);
  }

  // Making room

  /** The entries a sweep looks at: the first so many of the order from place n on
      that the table has. */
  function Sampled(t: map<Account, BucketId>, order: seq<Account>, n: nat, limit: nat): seq<Account>
    decreases |order| - n
  {
    if n >= |order| || limit == 0 then []
    else if order[n] !in t then Sampled(t, order, n + 1, limit)
    else [order[n]] + Sampled(t, order, n + 1, limit - 1)
  }

  /** By now the account has its whole window back and no ticket out. */
  predicate Rested(c: Caps, s: State, a: Account, now: real) {
    && a in s.table && s.table[a] in s.heap
    && var b := s.heap[s.table[a]];
    && b.outstanding == 0
    && Refill(c, b, now).deliveries >= c.deliveriesPerMinute && Refill(c, b, now).bytes >= c.bytesPerHour
  }

  lemma LookRests(c: Caps, s: State, a: Account, x: Account, now: real)
    requires Shaped(s) && a in s.table
    ensures Look(c, s, a, now).1 <==> Rested(c, s, a, now)
    ensures !Look(c, s, a, now).1 ==> (Rested(c, Look(c, s, a, now).0, x, now) <==> Rested(c, s, x, now))
  {
  }

  datatype Option<+T> = None | Some(value: T)

  function FirstRested(c: Caps, s: State, accounts: seq<Account>, now: real): Option<Account> {
    if accounts == [] then None
    else if Rested(c, s, accounts[0], now) then Some(accounts[0])
    else FirstRested(c, s, accounts[1..], now)
  }

  lemma {:induction false} FirstRestedIs(c: Caps, s: State, accounts: seq<Account>, now: real)
    ensures FirstRested(c, s, accounts, now).Some? <==> exists a | a in accounts :: Rested(c, s, a, now)
  {
    if accounts != [] && !Rested(c, s, accounts[0], now) {
      FirstRestedIs(c, s, accounts[1..], now);
      assert accounts == [accounts[0]] + accounts[1..];
    }
  }

  lemma {:induction false} LookingChangesNone(c: Caps, s: State, a: Account, accounts: seq<Account>, now: real)
    requires Shaped(s) && a in s.table && !Look(c, s, a, now).1
    ensures FirstRested(c, Look(c, s, a, now).0, accounts, now) == FirstRested(c, s, accounts, now)
  {
    if accounts != [] {
      LookRests(c, s, a, accounts[0], now);
      LookingChangesNone(c, s, a, accounts[1..], now);
    }
  }

  /** The first of these goes, if there is one. */
  predicate Drops(t: map<Account, BucketId>, swept: (State, bool), first: Option<Account>) {
    swept.1 == first.Some? && swept.0.table == if first.Some? then t - {first.value} else t
  }

  lemma SweepsOn(c: Caps, s: State, order: seq<Account>, n: nat, now: real, limit: nat, first: Option<Account>)
    requires Shaped(s) && n < |order| && limit > 0 && order[n] in s.table
    requires var (s1, gone) := Look(c, s, order[n], now);
      if gone then first == Some(order[n]) else Drops(s.table, Sweep(c, s1, order, n + 1, now, limit - 1), first)
    ensures Drops(s.table, Sweep(c, s, order, n, now, limit), first)
  {
  }

  /** A sweep drops the first rested entry among those it looks at, and nothing
      when there is none. */
  lemma {:induction false} SweepDrops(c: Caps, s: State, order: seq<Account>, n: nat, now: real, limit: nat)
    requires Shaped(s)
    ensures Drops(s.table, Sweep(c, s, order, n, now, limit), FirstRested(c, s, Sampled(s.table, order, n, limit), now))
    decreases |order| - n
  {
    if n < |order| && limit > 0 {
      if order[n] !in s.table {
        SweepDrops(c, s, order, n + 1, now, limit);
      } else {
        var (s1, gone) := Look(c, s, order[n], now);
        var rest := Sampled(s.table, order, n + 1, limit - 1);
        var looked := [order[n]] + rest;
        assert Sampled(s.table, order, n, limit) == looked && looked[1..] == rest;
        LookRests(c, s, order[n], order[n], now);
        if !gone {
          LookingChangesNone(c, s, order[n], rest, now);
          SweepDrops(c, s1, order, n + 1, now, limit - 1);
        }
        SweepsOn(c, s, order, n, now, limit, FirstRested(c, s, looked, now));
      }
    }
  }

  /** A new account gets an entry of its own exactly when there is room, or one of
      the first sixty-four entries looked at is rested. */
  lemma RoomExactly(c: Caps, max: nat, s: State, e: Event)
    requires Positive(c) && Shaped(s) && e.Reserving? && e.a !in s.table
    ensures e.a in Reserve(c, max, s, e.a, e.deliveries, e.bytes, e.now, e.order).0.table <==>
            |s.table| < max || exists a | a in Sampled(s.table, e.order, 0, 64) :: Rested(c, s, a, e.now)
  {
    SweepDrops(c, s, e.order, 0, e.now, SAMPLE);
    FirstRestedIs(c, s, Sampled(s.table, e.order, 0, SAMPLE), e.now);
    assert Reserve(c, max, s, e.a, e.deliveries, e.bytes, e.now, e.order).0.table
        == Route(c, max, s, e.a, e.order, e.now).0.table;
  }

  // Why a request is refused

  /** What happened to an account's allowance: time passed, a reservation was
      charged, a settlement gave back what was not used (or took what was used
      beyond it). */
  datatype Entry = Passed(span: real) | Charged(deliveries: real, bytes: real) | Returned(deliveries: real, bytes: real)

  /** The account's entries in order, from the requests and answers of the run. */
  function Ledger(c: Caps, max: nat, clock: real, es: seq<Event>, a: Account): seq<Entry>
    requires Positive(c)
  {
    if es == [] then []
    else
      var before := Exec(c, max, Start(c, clock), es[..|es| - 1]);
      Ledger(c, max, clock, es[..|es| - 1], a) + News(c, max, before, es[|es| - 1], a)
  }

  /** The time since the account's last request. */
  function Since(w: World, a: Account, now: real): seq<Entry> {
    if a in w.ref then [Passed(now - w.ref[a].updated)] else []
  }

  function News(c: Caps, max: nat, w: World, e: Event, a: Account): seq<Entry>
    requires Positive(c) && Shaped(w.s)
  {
    match e
    case Reserving(x, d, b, now, order) =>
      var (s, answer) := Reserve(c, max, w.s, x, d, b, now, order);
      if x != a || x !in s.table then []
      else Since(w, a, now) + if answer.Admitted? then [Charged(Need(d, 1), Need(b, 0))] else []
    case Settling(i, d, b) =>
      if i < |w.s.tickets| && !w.s.tickets[i].done && w.s.tickets[i].owner == Own(a) then
        [Returned(w.s.tickets[i].deliveries - Need(d, 0), w.s.tickets[i].bytes - Need(b, 0))]
      else []
  }

  /** What one entry adds to a balance. */
  function DeliveryChange(c: Caps, e: Entry): real {
    match e
    case Passed(span) => Gain(c.deliveriesPerMinute, MINUTE, span)
    case Charged(d, _) => -d
    case Returned(d, _) => d
  }

  function ByteChange(c: Caps, e: Entry): real {
    match e
    case Passed(span) => Gain(c.bytesPerHour, HOUR, span)
    case Charged(_, b) => -b
    case Returned(_, b) => b
  }

  function DeliveryChanges(c: Caps, es: seq<Entry>): seq<real> { seq(|es|, i requires 0 <= i < |es| => DeliveryChange(c, es[i])) }

  function ByteChanges(c: Caps, es: seq<Entry>): seq<real> { seq(|es|, i requires 0 <= i < |es| => ByteChange(c, es[i])) }

  /** The sum of the changes from the j-th on. */
  function Total(xs: seq<real>, j: nat): real
    requires j <= |xs|
    decreases |xs|
  {
    if j == |xs| then 0.0 else Total(xs[..|xs| - 1], j) + xs[|xs| - 1]
  }

  /** Since some moment, more was charged than a full window, what was given back
      and the refill allow, with the need on top. */
  ghost predicate Overdrawn(cap: real, xs: seq<real>, need: real) {
    exists j | 0 <= j <= |xs| :: need - Total(xs, j) > cap
  }

  /** A balance that starts full and is cut off at the cap after each change. */
  function Level(cap: real, xs: seq<real>): real {
    if xs == [] then cap else Min(cap, Level(cap, xs[..|xs| - 1]) + xs[|xs| - 1])
  }

  lemma {:induction false} LevelIsSlack(cap: real, xs: seq<real>, need: real)
    ensures need > Level(cap, xs) <==> Overdrawn(cap, xs, need)
  {
    if xs == [] {
      assert Total(xs, 0) == 0.0;
    } else {
      var front, x := xs[..|xs| - 1], xs[|xs| - 1];
      LevelIsSlack(cap, front, need - x);
      assert Total(xs, |xs|) == 0.0;
      if need > cap {
        assert need - Total(xs, |xs|) > cap;
      }
      if j :| 0 <= j <= |front| && need - x - Total(front, j) > cap {
        assert Total(xs, j) == Total(front, j) + x;
        assert need - Total(xs, j) > cap;
      }
      if j :| 0 <= j <= |xs| && need - Total(xs, j) > cap {
        if j < |xs| {
          assert need - x - Total(front, j) > cap;
        }
      }
    }
  }

  lemma LevelNext(cap: real, xs: seq<real>, x: real)
    ensures Level(cap, xs + [x]) == Min(cap, Level(cap, xs) + x)
  {
    assert (xs + [x])[..|xs|] == xs;
  }

  /** The entry moves both balances. */
  lemma Posts(c: Caps, es: seq<Entry>, e: Entry)
    ensures Level(c.deliveriesPerMinute, DeliveryChanges(c, es + [e]))
            == Min(c.deliveriesPerMinute, Level(c.deliveriesPerMinute, DeliveryChanges(c, es)) + DeliveryChange(c, e))
    ensures Level(c.bytesPerHour, ByteChanges(c, es + [e]))
            == Min(c.bytesPerHour, Level(c.bytesPerHour, ByteChanges(c, es)) + ByteChange(c, e))
  {
    assert DeliveryChanges(c, es + [e]) == DeliveryChanges(c, es) + [DeliveryChange(c, e)];
    assert ByteChanges(c, es + [e]) == ByteChanges(c, es) + [ByteChange(c, e)];
    LevelNext(c.deliveriesPerMinute, DeliveryChanges(c, es), DeliveryChange(c, e));
    LevelNext(c.bytesPerHour, ByteChanges(c, es), ByteChange(c, e));
  }

  /** The bucket holds what the entries say. */
  predicate Holds(c: Caps, b: Bucket, es: seq<Entry>) {
    && b.deliveries == Level(c.deliveriesPerMinute, DeliveryChanges(c, es))
    && b.bytes == Level(c.bytesPerHour, ByteChanges(c, es))
  }

  lemma RefillPosts(c: Caps, b: Bucket, es: seq<Entry>, now: real)
    requires Positive(c) && Capped(c, b) && Holds(c, b, es) && b.updated <= now
    ensures Holds(c, Refill(c, b, now), es + [Passed(now - b.updated)])
  {
    Posts(c, es, Passed(now - b.updated));
    assert now == b.updated ==> Gain(c.deliveriesPerMinute, MINUTE, 0.0) == 0.0 && Gain(c.bytesPerHour, HOUR, 0.0) == 0.0;
  }

  lemma DebitPosts(c: Caps, b: Bucket, es: seq<Entry>, need: real, needBytes: real)
    requires Capped(c, b) && Holds(c, b, es) && need >= 0.0 && needBytes >= 0.0
    ensures Holds(c, Debit(b, need, needBytes), es + [Charged(need, needBytes)])
  {
    Posts(c, es, Charged(need, needBytes));
  }

  lemma CreditPosts(c: Caps, b: Bucket, es: seq<Entry>, d: real, n: real)
    requires Holds(c, b, es)
    ensures Holds(c, Credit(c, b, d, n), es + [Returned(d, n)])
  {
    Posts(c, es, Returned(d, n));
  }

  /** What the account's bucket has come to when it asks at a time. */
  lemma AskedPosts(c: Caps, w: World, a: Account, es: seq<Entry>, now: real)
    requires Positive(c) && RefCapped(c, w.ref) && (if a in w.ref then Holds(c, w.ref[a], es) && w.ref[a].updated <= now else es == [])
    ensures Holds(c, RefBucket(c, w.ref, a, now), es + Since(w, a, now)) && Capped(c, RefBucket(c, w.ref, a, now))
  {
    if a in w.ref {
      RefillPosts(c, w.ref[a], es, now);
      RefillCaps(c, w.ref[a], now);
    } else {
      assert es + Since(w, a, now) == [];
    }
  }

  /** The table that never evicts holds what the ledger says. */
  ghost predicate Posted(c: Caps, w: World, a: Account, es: seq<Entry>) {
    if a in w.ref then Holds(c, w.ref[a], es) && w.ref[a].updated <= w.clock else es == []
  }

  lemma PostedReserve(c: Caps, max: nat, w: World, e: Event, a: Account, es: seq<Entry>)
    requires Positive(c) && Shaped(w.s) && Agree(c, w) && Good(c, w.s, w.clock) && |w.s.table| <= max
    requires RefCapped(c, w.ref) && e.Reserving? && OnTime(w, e) && Posted(c, w, a, es)
    ensures Posted(c, Next(c, max, w, e), a, es + News(c, max, w, e, a))
  {
    var w' := Next(c, max, w, e);
    var need, needBytes := Need(e.deliveries, 1), Need(e.bytes, 0);
    if e.a == a && a in w'.s.table {
      AskedPosts(c, w, a, es, e.now);
      AgreeReserve(c, max, w, e);
      var b, asked := RefBucket(c, w.ref, a, e.now), es + Since(w, a, e.now);
      RefillCaps(c, if a in w.ref then w.ref[a] else Fresh(c, e.now), e.now);
      DebitPosts(c, b, asked, need, needBytes);
      assert es + (Since(w, a, e.now) + [Charged(need, needBytes)]) == asked + [Charged(need, needBytes)];
      assert es + (Since(w, a, e.now) + []) == asked;
    } else {
      assert es + [] == es;
    }
  }

  lemma PostedSettle(c: Caps, w: World, e: Event, a: Account, es: seq<Entry>)
    requires Positive(c) && Good(c, w.s, w.clock) && Agree(c, w) && e.Settling? && Posted(c, w, a, es)
    ensures Posted(c, Next(c, 0, w, e), a, es + News(c, 0, w, e, a))
  {
    if e.i < |w.s.tickets| && !w.s.tickets[e.i].done && w.s.tickets[e.i].owner == Own(a) {
      var t := w.s.tickets[e.i];
      assert Reachable(w.s, t) && a in w.ref;
      CreditPosts(c, w.ref[a], es, t.deliveries - Need(e.deliveries, 0), t.bytes - Need(e.bytes, 0));
    } else {
      assert es + [] == es;
    }
  }

  lemma {:induction false} RunPosted(c: Caps, max: nat, clock: real, es: seq<Event>, a: Account)
    requires Positive(c) && Run(c, max, Start(c, clock), es, true)
    ensures Posted(c, Exec(c, max, Start(c, clock), es), a, Ledger(c, max, clock, es, a))
  {
    if es != [] {
      var n := |es| - 1;
      var w := Exec(c, max, Start(c, clock), es[..n]);
      RunPosted(c, max, clock, es[..n], a);
      RunAgrees(c, max, clock, es[..n]);
      RunGood(c, max, clock, es[..n], true);
      RunRefCapped(c, max, clock, es[..n], true);
      if es[n].Reserving? {
        PostedReserve(c, max, w, es[n], a, Ledger(c, max, clock, es[..n], a));
      } else {
        PostedSettle(c, w, es[n], a, Ledger(c, max, clock, es[..n], a));
      }
    }
  }

  /** After any run whose settlements stay within their reservations, a request
      answered from the account's own entry is refused exactly when, since some
      moment of the account's history, its charges and this need exceed a full
      window plus what was returned and refilled since, for deliveries or bytes. */
  lemma RefusedExactly(c: Caps, max: nat, clock: real, es: seq<Event>, e: Event, w: World, asked: seq<Entry>)
    requires Positive(c) && Run(c, max, Start(c, clock), es, true) && w == Exec(c, max, Start(c, clock), es)
    requires e.Reserving? && OnTime(w, e) && e.a in Next(c, max, w, e).s.table
    requires asked == Ledger(c, max, clock, es, e.a) + Since(w, e.a, e.now)
    ensures Reserve(c, max, w.s, e.a, e.deliveries, e.bytes, e.now, e.order).1.Refused? <==>
            || Overdrawn(c.deliveriesPerMinute, DeliveryChanges(c, asked), Need(e.deliveries, 1))
            || Overdrawn(c.bytesPerHour, ByteChanges(c, asked), Need(e.bytes, 0))
  {
    RunPosted(c, max, clock, es, e.a);
    RunRefCapped(c, max, clock, es, true);
    EvictionIsUnobservable(c, max, clock, es, e);
    AskedPosts(c, w, e.a, Ledger(c, max, clock, es, e.a), e.now);
    LevelIsSlack(c.deliveriesPerMinute, DeliveryChanges(c, asked), Need(e.deliveries, 1));
    LevelIsSlack(c.bytesPerHour, ByteChanges(c, asked), Need(e.bytes, 0));
  }
}
