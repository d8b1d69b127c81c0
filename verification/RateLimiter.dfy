/**
 The request rate limiter's address table: fixed one-minute windows per client
 address, a bounded table, eviction that spares used credential budgets, and a
 shared overflow window. Times are integers, in nanoseconds.
 */
module RateLimiter {

  type Key = string

  const WINDOW := 60_000_000_000
  const SAMPLE := 32

  datatype Option<+T> = None | Some(value: T)

  datatype Limits = Limits(general: nat, auth: nat, enrollment: nat, signedIn: nat)

  datatype Bucket = Bucket(general: nat, auth: nat, enrollment: nat, signedIn: nat, reset: int)

  function Fresh(now: int): Bucket { Bucket(0, 0, 0, 0, now + WINDOW) }

  predicate Spends(b: Bucket) { b.auth > 0 || b.enrollment > 0 }

  function Load(b: Bucket): nat { b.general + b.signedIn }

  type Table = map<Key, Bucket>

  // Eviction

  /** The least used of the live entries seen so far without credential use. */
  function Better(t: Table, victim: Option<Key>, k: Key): Option<Key>
    requires k in t
  {
    if Spends(t[k]) then victim
    else if victim.Some? && victim.value in t && Load(t[victim.value]) <= Load(t[k]) then victim
    else Some(k)
  }

  function Without(t: Table, k: Key): Table { t - {k} }

  /** Walks the table from place n of the given order: an expired entry goes at
      once, and after SAMPLE live ones the best victim goes, if there is one. */
  function Scan(t: Table, order: seq<Key>, n: nat, now: int, max: nat, sampled: nat, victim: Option<Key>): (Table, bool)
    decreases |order| - n
  {
    if n >= |order| || sampled >= SAMPLE then
      if victim.Some? then (Without(t, victim.value), true) else (t, false)
    else if order[n] !in t then Scan(t, order, n + 1, now, max, sampled, victim)
    else if t[order[n]].reset <= now then
      var t1 := Without(t, order[n]);
      if |t1| < max then (t1, true) else Scan(t1, order, n + 1, now, max, sampled, victim)
    else Scan(t, order, n + 1, now, max, sampled + 1, Better(t, victim, order[n]))
  }

  function EvictOne(t: Table, order: seq<Key>, now: int, max: nat): (Table, bool) {
    if |t| < max then (t, true) else Scan(t, order, 0, now, max, 0, None)
  }

  // Requests

  datatype Route = Credential | Enrollment | Ordinary | Public

  /** Which window a request is counted in. */
  datatype Stream = Own(key: Key) | Overflow

  datatype Limiter = Limiter(table: Table, overflow: Option<Bucket>) {
    predicate Has(s: Stream) { match s case Own(k) => k in table case Overflow => overflow.Some? }
    function At(s: Stream): Bucket
      requires Has(s)
    {
      match s case Own(k) => table[k] case Overflow => overflow.value
    }
    function Put(s: Stream, b: Bucket): Limiter {
      match s
      case Own(k) => this.(table := table[k := b])
      case Overflow => this.(overflow := Some(b))
    }
  }

  /** key's window for the current minute, or the overflow window. */
  function BucketFor(l: Limiter, max: nat, key: Key, now: int, order: seq<Key>): (r: (Limiter, Stream))
    ensures r.0.Has(r.1)
  {
    if key in l.table && l.table[key].reset >= now then (l, Own(key))
    else if key !in l.table && |l.table| >= max then
      var (t, ok) := EvictOne(l.table, order, now, max);
      if ok then (l.(table := t[key := Fresh(now)]), Own(key))
      else (Limiter(t, if l.overflow.Some? && l.overflow.value.reset >= now then l.overflow else Some(Fresh(now))), Overflow)
    else (l.(table := l.table[key := Fresh(now)]), Own(key))
  }

  function Count(b: Bucket, route: Route, signedIn: bool): Bucket {
    b.(signedIn := b.signedIn + if signedIn then 1 else 0,
       general := b.general + if signedIn then 0 else 1,
       auth := b.auth + if route.Credential? then 1 else 0,
       enrollment := b.enrollment + if route.Enrollment? then 1 else 0)
  }

  predicate Admits(limits: Limits, b: Bucket, route: Route, signedIn: bool) {
    && !(route.Credential? && b.auth > limits.auth)
    && !(route.Enrollment? && b.enrollment > limits.enrollment)
    && !(signedIn && b.signedIn > limits.signedIn)
    && !(!signedIn && b.general > limits.general)
  }

  datatype Record = Record(stream: Stream, route: Route, signedIn: bool, now: int, reset: int, admitted: bool)

  /** A session token counts on ordinary routes only. */
  predicate SignedIn(route: Route, token: bool) { route.Ordinary? && token }

  /** A request: its window is found, counted and judged. */
  function Request(l: Limiter, limits: Limits, max: nat, key: Key, now: int, route: Route, token: bool,
                   order: seq<Key>): (Limiter, Record)
  {
    var (l1, s) := BucketFor(l, max, key, now, order);
    var signedIn := SignedIn(route, token);
    var b := Count(l1.At(s), route, signedIn);
    (l1.Put(s, b), Record(s, route, signedIn, now, b.reset, Admits(limits, b, route, signedIn)))
  }

  /** A signed-in request that turns out to carry no session is charged to the
      address's general count, and refused when that is spent. */
  function ChargeGeneral(l: Limiter, limits: Limits, max: nat, key: Key, now: int, order: seq<Key>): (Limiter, Record) {
    Request(l, limits, max, key, now, Ordinary, false, order)
  }

  function Cleanup(l: Limiter, now: int): Limiter {
    l.(table := map k | k in l.table && l.table[k].reset >= now :: l.table[k])
  }

  /** The limiter's address table, under its mutex. */
  class AddressTable {
    const limits: Limits
    const maxEntries: nat
    var table: Table
    var overflow: Option<Bucket>

    function View(): Limiter
      reads this
    {
      Limiter(table, overflow)
    }

    constructor (limits: Limits, maxEntries: nat)
      ensures View() == Limiter(map[], None) && this.limits == limits && this.maxEntries == maxEntries
    {
      this.limits, this.maxEntries := limits, maxEntries;
      table, overflow := map[], None;
    }

    /** order is the order in which the runtime walks the table. */
    method EvictOneLocked(order: seq<Key>, now: int) returns (ok: bool)
      modifies this`table
      ensures (table, ok) == EvictOne(old(table), order, now, maxEntries)
    {
      if |table| < maxEntries {
        return true;
      }
      var sampled, n := 0, 0;
      var victim: Option<Key> := None;
      ghost var goal := Scan(table, order, 0, now, maxEntries, 0, None);
      while n < |order| && sampled < SAMPLE
        invariant goal == Scan(table, order, n, now, maxEntries, sampled, victim)
      {
        if order[n] in table {
          if table[order[n]].reset <= now {
            table := Without(table, order[n]);
            if |table| < maxEntries {
              return true;
            }
          } else {
            victim := Better(table, victim, order[n]);
            sampled := sampled + 1;
          }
        }
        n := n + 1;
      }
      if victim.None? {
        return false;
      }
      table := Without(table, victim.value);
      ok := true;
    }

    method BucketLocked(key: Key, now: int, order: seq<Key>) returns (s: Stream)
      modifies this
      ensures (View(), s) == BucketFor(old(View()), maxEntries, key, now, order)
    {
      if key in table && table[key].reset >= now {
        return Own(key);
      }
      if key !in table && |table| >= maxEntries {
        var ok := EvictOneLocked(order, now);
        if !ok {
          if !(overflow.Some? && overflow.value.reset >= now) {
            overflow := Some(Fresh(now));
          }
          return Overflow;
        }
      }
      table := table[key := Fresh(now)];
      s := Own(key);
    }

    method HandleRequest(key: Key, now: int, route: Route, token: bool, order: seq<Key>) returns (r: Record)
      modifies this
      ensures (View(), r) == Request(old(View()), limits, maxEntries, key, now, route, token, order)
    {
      var signedIn := SignedIn(route, token);
      var s := BucketLocked(key, now, order);
      var b := Count(View().At(s), route, signedIn);
      match s {
        case Own(k) => table := table[k := b];
        case Overflow => overflow := Some(b);
      }
      r := Record(s, route, signedIn, now, b.reset, Admits(limits, b, route, signedIn));
    }

    method SettleLocked(key: Key, now: int, order: seq<Key>) returns (ok: bool)
      modifies this
      ensures var (l, r) := ChargeGeneral(old(View()), limits, maxEntries, key, now, order); View() == l && ok == r.admitted
    {
      var s := BucketLocked(key, now, order);
      var b := View().At(s);
      b := b.(general := b.general + 1);
      match s {
        case Own(k) => table := table[k := b];
        case Overflow => overflow := Some(b);
      }
      ok := b.general <= limits.general;
    }

    /** keys is the order in which the runtime walks the table. */
    method CleanupLocked(now: int, keys: seq<Key>)
      requires forall k :: k in table <==> k in keys
      modifies this`table
      ensures View() == Cleanup(old(View()), now)
    {
      for n := 0 to |keys|
        invariant forall k :: k in table ==> k in old(table) && table[k] == old(table)[k]
        invariant forall k :: k in old(table) && k !in table ==> old(table)[k].reset < now
        invariant forall i :: 0 <= i < n && keys[i] in table ==> table[keys[i]].reset >= now
      {
        if keys[n] in table && table[keys[n]].reset < now {
          table := table - {keys[n]};
        }
      }
    }
  }
}
