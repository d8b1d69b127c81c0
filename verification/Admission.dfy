/**
 The per-account write budget: two token buckets per account, reservations that
 are settled later, and a bounded table with eviction. Balances and times are
 reals, times in seconds.
 */
module Admission {

  type Account = string
  type BucketId = nat

  datatype Caps = Caps(deliveriesPerMinute: real, bytesPerHour: real)

  predicate Positive(c: Caps) { c.deliveriesPerMinute > 0.0 && c.bytesPerHour > 0.0 }

  function Min(a: real, b: real): real { if a <= b then a else b }

  function Max(a: real, b: real): real { if a >= b then a else b }

  /** What a limit of cap per period hands out in time t. */
  function Gain(cap: real, period: real, t: real): real
    requires period > 0.0
  {
    t / period * cap
  }

  function Grow(cap: real, period: real, balance: real, t: real): real
    requires period > 0.0
  {
    Min(cap, balance + Gain(cap, period, t))
  }

  const MINUTE := 60.0
  const HOUR := 3600.0

  datatype Bucket = Bucket(deliveries: real, bytes: real, updated: real, outstanding: nat)

  function Refill(c: Caps, b: Bucket, now: real): Bucket {
    if now > b.updated then
      b.(deliveries := Grow(c.deliveriesPerMinute, MINUTE, b.deliveries, now - b.updated),
         bytes := Grow(c.bytesPerHour, HOUR, b.bytes, now - b.updated),
         updated := now)
    else b
  }

  predicate Full(c: Caps, b: Bucket) { b.deliveries >= c.deliveriesPerMinute && b.bytes >= c.bytesPerHour }

  function Fresh(c: Caps, now: real): Bucket { Bucket(c.deliveriesPerMinute, c.bytesPerHour, now, 0) }

  /** How one reservation is answered. */
  datatype Answer = Admitted | Refused(wait: real)

  /** The refilled bucket either covers the need or says how long until it
      would, at least a second. */
  function Decide(c: Caps, b: Bucket, need: real, needBytes: real): Answer
    requires Positive(c)
  {
    if b.deliveries >= need && b.bytes >= needBytes then Admitted
    else
      var w1 := if b.deliveries < need then (need - b.deliveries) / c.deliveriesPerMinute * MINUTE else 0.0;
      var w2 := if b.bytes < needBytes then (needBytes - b.bytes) / c.bytesPerHour * HOUR else 0.0;
      Refused(Max(Max(w1, w2), 1.0))
  }

  function Debit(b: Bucket, need: real, needBytes: real): Bucket {
    b.(deliveries := b.deliveries - need, bytes := b.bytes - needBytes, outstanding := b.outstanding + 1)
  }

  function Credit(c: Caps, b: Bucket, deliveries: real, bytes: real): Bucket {
    b.(deliveries := Min(c.deliveriesPerMinute, b.deliveries + deliveries),
       bytes := Min(c.bytesPerHour, b.bytes + bytes),
       outstanding := if b.outstanding > 0 then b.outstanding - 1 else 0)
  }

  // Refilling in steps

  lemma GainAdds(cap: real, period: real, t1: real, t2: real)
    requires period > 0.0
    ensures Gain(cap, period, t1) + Gain(cap, period, t2) == Gain(cap, period, t1 + t2)
  {
    assert (t1 + t2) / period == t1 / period + t2 / period;
  }

  lemma GainPositive(cap: real, period: real, t: real)
    requires period > 0.0 && cap > 0.0 && t >= 0.0
    ensures Gain(cap, period, t) >= 0.0
  {
    assert t / period >= 0.0;
  }

  lemma GrowTwice(cap: real, period: real, x: real, t1: real, t2: real)
    requires period > 0.0 && cap > 0.0 && t1 >= 0.0 && t2 >= 0.0
    ensures Grow(cap, period, Grow(cap, period, x, t1), t2) == Grow(cap, period, x, t1 + t2)
  {
    GainAdds(cap, period, t1, t2);
    GainPositive(cap, period, t1);
    GainPositive(cap, period, t2);
  }

  /** Refilling on the way makes no difference. */
  lemma RefillTwice(c: Caps, b: Bucket, t1: real, t2: real)
    requires Positive(c) && t1 <= t2
    ensures Refill(c, Refill(c, b, t1), t2) == Refill(c, b, t2)
  {
    if b.updated < t1 < t2 {
      GrowTwice(c.deliveriesPerMinute, MINUTE, b.deliveries, t1 - b.updated, t2 - t1);
      GrowTwice(c.bytesPerHour, HOUR, b.bytes, t1 - b.updated, t2 - t1);
    }
  }

  /** Nor does refilling before or after a refund. */
  lemma CreditRefill(c: Caps, b: Bucket, t: real, deliveries: real, bytes: real)
    requires Positive(c) && deliveries >= 0.0 && bytes >= 0.0
    ensures Refill(c, Credit(c, b, deliveries, bytes), t) ==
            Credit(c, Refill(c, b, t), deliveries, bytes)
  {
    if t > b.updated {
      GainPositive(c.deliveriesPerMinute, MINUTE, t - b.updated);
      GainPositive(c.bytesPerHour, HOUR, t - b.updated);
    }
  }

  // The table

  /** Whose allowance a ticket was taken from: an account's own entry or the
      shared overflow bucket. */
  datatype Owner = Own(a: Account) | Shared

  datatype Ticket = Ticket(owner: Owner, bk: BucketId, deliveries: real, bytes: real,
                           done: bool, usedDeliveries: real, usedBytes: real)

  /** Buckets are objects with an identity: tickets keep pointing at theirs. */
  datatype State = State(table: map<Account, BucketId>, heap: map<BucketId, Bucket>, next: BucketId,
                         sharedStarted: bool, tickets: seq<Ticket>)

  const OVERFLOW: BucketId := 0
  const SAMPLE := 64

  function Initial(c: Caps): State {
    State(map[], map[OVERFLOW := Fresh(c, 0.0)], 1, false, [])
  }

  /** Every table entry and the overflow bucket is an allocated bucket, and no
      two names share one. */
  predicate Shaped(s: State) {
    && OVERFLOW in s.heap && s.next > OVERFLOW
    && (forall a :: a in s.table ==> s.table[a] in s.heap && s.table[a] != OVERFLOW)
    && (forall a, b :: a in s.table && b in s.table && s.table[a] == s.table[b] ==> a == b)
    && (forall k :: k in s.heap ==> k < s.next)
  }

  function Touch(c: Caps, s: State, k: BucketId, now: real): State
    requires k in s.heap
  {
    s.(heap := s.heap[k := Refill(c, s.heap[k], now)])
  }

  predicate Evictable(c: Caps, b: Bucket) { b.outstanding == 0 && Full(c, b) }

  /** One entry looked at: refilled, and dropped if it is full again and has no
      ticket out. */
  function Look(c: Caps, s: State, a: Account, now: real): (r: (State, bool))
    requires Shaped(s) && a in s.table
    ensures Shaped(r.0) && r.0.tickets == s.tickets && r.0.next == s.next && r.0.sharedStarted == s.sharedStarted
    ensures r.0.table == if r.1 then s.table - {a} else s.table
  {
    var k := s.table[a];
    var s1 := Touch(c, s, k, now);
    if Evictable(c, s1.heap[k]) then (s1.(table := s1.table - {a}, heap := s1.heap - {k}), true) else (s1, false)
  }

  /** Looks at up to limit entries, from place n of the given order on, until
      one is dropped. */
  function Sweep(c: Caps, s: State, order: seq<Account>, n: nat, now: real, limit: nat): (r: (State, bool))
    requires Shaped(s)
    ensures Shaped(r.0) && r.0.tickets == s.tickets && r.0.next == s.next && r.0.sharedStarted == s.sharedStarted
    ensures r.0.table.Keys <= s.table.Keys && |r.0.table| == |s.table| - if r.1 then 1 else 0
    decreases |order| - n
  {
    if n >= |order| || limit == 0 then (s, false)
    else if order[n] !in s.table then Sweep(c, s, order, n + 1, now, limit)
    else
      var (s1, dropped) := Look(c, s, order[n], now);
      if dropped then (s1, true) else Sweep(c, s1, order, n + 1, now, limit - 1)
  }

  function Add(c: Caps, s: State, a: Account, now: real): State {
    s.(table := s.table[a := s.next], heap := s.heap[s.next := Fresh(c, now)], next := s.next + 1)
  }

  /** The bucket a reservation of account a is charged to. */
  function Route(c: Caps, max: nat, s: State, a: Account, order: seq<Account>, now: real): (r: (State, BucketId))
    requires Shaped(s)
    ensures Shaped(r.0) && r.1 in r.0.heap && r.0.tickets == s.tickets
    ensures r.1 == (if a in r.0.table then r.0.table[a] else OVERFLOW)
  {
    if a in s.table then (s, s.table[a])
    else if |s.table| < max then (Add(c, s, a, now), s.next)
    else
      var (s1, ok) := Sweep(c, s, order, 0, now, SAMPLE);
      if ok then (Add(c, s1, a, now), s1.next)
      else (if s1.sharedStarted then s1
            else s1.(heap := s1.heap[OVERFLOW := s1.heap[OVERFLOW].(updated := now)], sharedStarted := true), OVERFLOW)
  }

  function Need(n: int, least: int): real { (if n > least then n else least) as real }

  function Reserve(c: Caps, max: nat, s: State, a: Account, deliveries: int, bytes: int, now: real,
                   order: seq<Account>): (r: (State, Answer))
    requires Positive(c) && Shaped(s)
    ensures Shaped(r.0)
  {
    var need, needBytes := Need(deliveries, 1), Need(bytes, 0);
    var (s1, k) := Route(c, max, s, a, order, now);
    var s2 := Touch(c, s1, k, now);
    var answer := Decide(c, s2.heap[k], need, needBytes);
    if answer.Admitted? then
      var ticket := Ticket(if a in s2.table then Own(a) else Shared, k, need, needBytes, false, 0.0, 0.0);
      (s2.(heap := s2.heap[k := Debit(s2.heap[k], need, needBytes)], tickets := s2.tickets + [ticket]), answer)
    else (s2, answer)
  }

  /** Only the first settlement of a ticket counts. A bucket that left the table
      is no longer anyone's; Reachable shows that never happens to a ticket. */
  function Settle(c: Caps, s: State, i: nat, deliveries: int, bytes: int): (s': State)
    requires Shaped(s)
    ensures Shaped(s')
  {
    if i >= |s.tickets| || s.tickets[i].done then s
    else
      var t := s.tickets[i];
      var used, usedBytes := Need(deliveries, 0), Need(bytes, 0);
      var s1 := s.(tickets := s.tickets[i := t.(done := true, usedDeliveries := used, usedBytes := usedBytes)]);
      if t.bk in s.heap then
        s1.(heap := s.heap[t.bk := Credit(c, s.heap[t.bk], t.deliveries - used, t.bytes - usedBytes)])
      else s1
  }

  /** The budget as the server keeps it, under its mutex. */
  class Budget {
    const caps: Caps
    const maxEntries: nat
    var state: State

    ghost predicate Valid()
      reads this
    {
      Positive(caps) && Shaped(state)
    }

    constructor (caps: Caps, maxEntries: nat)
      requires Positive(caps)
      ensures Valid() && state == Initial(caps) && this.caps == caps && this.maxEntries == maxEntries
    {
      this.caps, this.maxEntries := caps, maxEntries;
      state := Initial(caps);
    }

    /** order is the order in which the runtime walks the table. */
    method EvictLocked(order: seq<Account>, now: real) returns (ok: bool)
      requires Valid()
      modifies this
      ensures Valid() && (state, ok) == Sweep(caps, old(state), order, 0, now, SAMPLE)
    {
      var sampled, n := 0, 0;
      ok := false;
      ghost var goal := Sweep(caps, state, order, 0, now, SAMPLE);
      while n < |order|
        invariant 0 <= n <= |order| && sampled <= SAMPLE && Valid() && !ok
        invariant goal == Sweep(caps, state, order, n, now, SAMPLE - sampled)
      {
        if sampled >= SAMPLE {
          break;
        }
        if order[n] in state.table {
          var dropped := LookAt(order[n], now);
          if dropped {
            return true;
          }
          sampled := sampled + 1;
        }
        n := n + 1;
      }
    }

    method LookAt(a: Account, now: real) returns (dropped: bool)
      requires Valid() && a in state.table
      modifies this
      ensures Valid() && (state, dropped) == Look(caps, old(state), a, now)
    {
      var k := state.table[a];
      state := Touch(caps, state, k, now);
      dropped := Evictable(caps, state.heap[k]);
      if dropped {
        state := state.(table := state.table - {a}, heap := state.heap - {k});
      }
    }

    /** The account's entry, a new one, or the overflow bucket. */
    method BucketFor(a: Account, now: real, order: seq<Account>) returns (k: BucketId)
      requires Valid()
      modifies this
      ensures Valid() && (state, k) == Route(caps, maxEntries, old(state), a, order, now)
    {
      if a in state.table {
        return state.table[a];
      }
      var room := |state.table| < maxEntries;
      if !room {
        room := EvictLocked(order, now);
      }
      if room {
        k := state.next;
        state := Add(caps, state, a, now);
      } else {
        k := OVERFLOW;
        if !state.sharedStarted {
          state := state.(heap := state.heap[OVERFLOW := state.heap[OVERFLOW].(updated := now)], sharedStarted := true);
        }
      }
    }

    method ReserveLocked(a: Account, deliveries: int, bytes: int, now: real, order: seq<Account>) returns (answer: Answer)
      requires Valid()
      modifies this
      ensures Valid() && (state, answer) == Reserve(caps, maxEntries, old(state), a, deliveries, bytes, now, order)
    {
      var k := BucketFor(a, now, order);
      state := Touch(caps, state, k, now);
      var need, needBytes := Need(deliveries, 1), Need(bytes, 0);
      answer := Decide(caps, state.heap[k], need, needBytes);
      if answer.Admitted? {
        var ticket := Ticket(if a in state.table then Own(a) else Shared, k, need, needBytes, false, 0.0, 0.0);
        state := state.(heap := state.heap[k := Debit(state.heap[k], need, needBytes)], tickets := state.tickets + [ticket]);
      }
    }

    method SettleTicket(i: nat, deliveries: int, bytes: int)
      requires Valid()
      modifies this
      ensures Valid() && state == Settle(caps, old(state), i, deliveries, bytes)
    {
      if i < |state.tickets| && !state.tickets[i].done {
        var t := state.tickets[i];
        var used, usedBytes := Need(deliveries, 0), Need(bytes, 0);
        if t.bk in state.heap {
          state := state.(heap := state.heap[t.bk := Credit(caps, state.heap[t.bk], t.deliveries - used, t.bytes - usedBytes)]);
        }
        state := state.(tickets := state.tickets[i := t.(done := true, usedDeliveries := used, usedBytes := usedBytes)]);
      }
    }
  }
}
