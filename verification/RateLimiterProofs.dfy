/**
 What the limiter promises over whole runs: whatever requests, settlements,
 cleanups and floods happen, a window that has counted a credential or
 enrollment attempt is not forgotten before it ends, so no sixty seconds admit
 more than twice a credential limit from one window stream. For the general and
 signed-in counts the same holds as long as no live window of the stream is
 evicted, and not otherwise.
 */
module RateLimiterProofs {
  import opened RateLimiter

  datatype Event =
    | Ask(key: Key, route: Route, token: bool, order: seq<Key>)
    | Charge(key: Key, order: seq<Key>)
    | Clean

  datatype Stamped = Stamped(event: Event, now: int)

  datatype World = World(limiter: Limiter, history: seq<Record>, clock: int)

  function Step(limits: Limits, max: nat, w: World, e: Stamped): World {
    match e.event
    case Ask(key, route, token, order) =>
      var (l, r) := Request(w.limiter, limits, max, key, e.now, route, token, order);
      World(l, w.history + [r], e.now)
    case Charge(key, order) =>
      var (l, r) := ChargeGeneral(w.limiter, limits, max, key, e.now, order);
      World(l, w.history + [r], e.now)
    case Clean =>
      World(Cleanup(w.limiter, e.now), w.history, e.now)
  }

  /** The runs: any events, at times that never go back. */
  predicate Legal(start: int, es: seq<Stamped>) {
    es == [] || (Legal(start, es[..|es| - 1]) && LastTime(start, es[..|es| - 1]) <= es[|es| - 1].now)
  }

  function LastTime(start: int, es: seq<Stamped>): int {
    if es == [] then start else es[|es| - 1].now
  }

  function Exec(limits: Limits, max: nat, start: int, es: seq<Stamped>): World {
    if es == [] then World(Limiter(map[], None), [], start)
    else Step(limits, max, Exec(limits, max, start, es[..|es| - 1]), es[|es| - 1])
  }

  // Eviction

  /** Everything gone was expired or had used no credential budget. */
  ghost predicate Spared(t: Table, t1: Table, now: int) {
    && (forall k | k in t1 :: k in t && t1[k] == t[k])
    && (forall k | k in t && k !in t1 :: t[k].reset <= now || !Spends(t[k]))
  }

  lemma {:induction false} ScanSpares(t: Table, order: seq<Key>, n: nat, now: int, max: nat, sampled: nat,
                                      victim: Option<Key>)
    requires victim.Some? && victim.value in t ==> !Spends(t[victim.value])
    ensures Spared(t, Scan(t, order, n, now, max, sampled, victim).0, now)
    decreases |order| - n
  {
    if n >= |order| || sampled >= SAMPLE {
    } else if order[n] !in t {
      ScanSpares(t, order, n + 1, now, max, sampled, victim);
    } else if t[order[n]].reset <= now {
      ScanSpares(Without(t, order[n]), order, n + 1, now, max, sampled, victim);
    } else {
      ScanSpares(t, order, n + 1, now, max, sampled + 1, Better(t, victim, order[n]));
    }
  }

  /** victim is the least used of the first n entries that spent no credential budget. */
  ghost predicate BestOf(t: Table, order: seq<Key>, n: nat, victim: Option<Key>)
    requires n <= |order| && forall i | 0 <= i < |order| :: order[i] in t
  {
    if victim.None? then forall i | 0 <= i < n :: Spends(t[order[i]])
    else
      && victim.value in order[..n] && victim.value in t && !Spends(t[victim.value])
      && forall i | 0 <= i < n :: Spends(t[order[i]]) || Load(t[victim.value]) <= Load(t[order[i]])
  }

  /** The rule of eviction, on a full table walked in any order: of the first 32
      entries, the first expired one goes; if all are live, the least used
      without credential use goes; if all spent credential budget, none does. */
  ghost predicate EvictionRule(t: Table, order: seq<Key>, now: int, t1: Table, ok: bool)
    requires forall i | 0 <= i < |order| :: order[i] in t
  {
    var m := if |order| < SAMPLE then |order| else SAMPLE;
    if ok then
      exists i | 0 <= i < m ::
        && t1 == t - {order[i]}
        && if t[order[i]].reset <= now then AllLive(t, order, i, now)
           else AllLive(t, order, m, now) && BestOf(t, order, m, Some(order[i]))
    else t1 == t && AllLive(t, order, m, now) && BestOf(t, order, m, None)
  }

  predicate AllLive(t: Table, order: seq<Key>, n: nat, now: int)
    requires n <= |order| && forall i | 0 <= i < |order| :: order[i] in t
  {
    forall i | 0 <= i < n :: now < t[order[i]].reset
  }

  lemma {:induction false} ScanRule(t: Table, order: seq<Key>, n: nat, now: int, victim: Option<Key>)
    requires forall i | 0 <= i < |order| :: order[i] in t
    requires n <= |order| && n <= SAMPLE && AllLive(t, order, n, now) && BestOf(t, order, n, victim)
    ensures var (t1, ok) := Scan(t, order, n, now, |t|, n, victim); EvictionRule(t, order, now, t1, ok)
    decreases |order| - n
  {
    if n == |order| || n == SAMPLE {
      if victim.Some? {
        var i :| 0 <= i < n && order[i] == victim.value;
      }
    } else if t[order[n]].reset <= now {
      Smaller(t, order[n]);
    } else {
      ScanRule(t, order, n + 1, now, Better(t, victim, order[n]));
    }
  }

  lemma Smaller(t: Table, k: Key)
    requires k in t
    ensures |Without(t, k)| == |t| - 1
  {
    assert Without(t, k).Keys == t.Keys - {k};
  }

  /** A full table is relieved by the rule of eviction. */
  lemma EvictsByTheRule(t: Table, order: seq<Key>, now: int, max: nat)
    requires |t| == max && forall i | 0 <= i < |order| :: order[i] in t
    ensures var (t1, ok) := EvictOne(t, order, now, max); EvictionRule(t, order, now, t1, ok) && (ok ==> |t1| == max - 1)
  {
    ScanRule(t, order, 0, now, None);
    forall k | k in t ensures |t - {k}| == |t| - 1 {
      Smaller(t, k);
    }
  }

  lemma {:induction false} ScanMakesRoom(t: Table, order: seq<Key>, n: nat, now: int, max: nat, sampled: nat,
                                         victim: Option<Key>)
    requires |t| <= max && (victim.Some? ==> victim.value in t)
    ensures var (t1, ok) := Scan(t, order, n, now, max, sampled, victim); if ok then |t1| < max else |t1| <= max
    decreases |order| - n
  {
    if n >= |order| || sampled >= SAMPLE {
      if victim.Some? {
        Smaller(t, victim.value);
      }
    } else if order[n] !in t {
      ScanMakesRoom(t, order, n + 1, now, max, sampled, victim);
    } else if t[order[n]].reset <= now {
      Smaller(t, order[n]);
    } else {
      ScanMakesRoom(t, order, n + 1, now, max, sampled + 1, Better(t, victim, order[n]));
    }
  }

  lemma StepBounded(limits: Limits, max: nat, w: World, e: Stamped)
    requires |w.limiter.table| <= max
    ensures |Step(limits, max, w, e).limiter.table| <= max
  {
    var t := w.limiter.table;
    if e.event.Clean? {
      Fewer(t, Cleanup(w.limiter, e.now).table);
    } else {
      if e.event.key !in t && |t| >= max {
        ScanMakesRoom(t, e.event.order, 0, e.now, max, 0, None);
      }
      BucketMoves(w.limiter, max, e.event.key, e.now, e.event.order, Overflow, Credentials);
      var (l, c) := BucketFor(w.limiter, max, e.event.key, e.now, e.event.order);
      assert |l.table| <= max;
      var put := l.Put(c, Step(limits, max, w, e).limiter.At(c));
      assert put.table.Keys == l.table.Keys;
    }
  }

  lemma Fewer(t: Table, t1: Table)
    requires t1.Keys <= t.Keys
    ensures |t1| <= |t|
  {
    SubsetSize(t1.Keys, t.Keys);
  }

  lemma {:induction false} SubsetSize(a: set<Key>, b: set<Key>)
    requires a <= b
    ensures |a| <= |b|
  {
    if a != {} {
      var k :| k in a;
      SubsetSize(a - {k}, b - {k});
    }
  }

  /** The table never holds more than its bound. */
  lemma {:induction false} TableIsBounded(limits: Limits, max: nat, start: int, es: seq<Stamped>)
    ensures |Exec(limits, max, start, es).limiter.table| <= max
  {
    if es != [] {
      TableIsBounded(limits, max, start, es[..|es| - 1]);
      StepBounded(limits, max, Exec(limits, max, start, es[..|es| - 1]), es[|es| - 1]);
    }
  }

  // One stream of windows

  /** What a window counts against a limit. */
  datatype Meter = Credentials | Enrollments | General | SignedIns

  predicate Guessing(m: Meter) { m.Credentials? || m.Enrollments? }

  predicate Counts(m: Meter, route: Route, signedIn: bool) {
    match m
    case Credentials => route.Credential?
    case Enrollments => route.Enrollment?
    case General => !signedIn
    case SignedIns => signedIn
  }

  function Use(b: Bucket, m: Meter): nat {
    match m
    case Credentials => b.auth
    case Enrollments => b.enrollment
    case General => b.general
    case SignedIns => b.signedIn
  }

  function Least(x: nat, y: nat): nat { if x <= y then x else y }

  /** A credential or enrollment request is also counted as a general one. */
  function Limit(limits: Limits, m: Meter): nat {
    match m
    case Credentials => Least(limits.auth, limits.general)
    case Enrollments => Least(limits.enrollment, limits.general)
    case General => limits.general
    case SignedIns => limits.signedIn
  }

  /** The stream has no window whose count still matters. */
  predicate Lost(l: Limiter, s: Stream, now: int, m: Meter) {
    l.Has(s) ==> l.At(s).reset <= now || (Guessing(m) && !Spends(l.At(s)))
  }

  /** A stream's window stays, or goes when it no longer matters and may start afresh. */
  predicate Moves(l: Limiter, l1: Limiter, s: Stream, now: int, m: Meter) {
    if l1.Has(s) then (l.Has(s) && l1.At(s) == l.At(s)) || (l1.At(s) == Fresh(now) && Lost(l, s, now, m))
    else Lost(l, s, now, m)
  }

  /** The event that is about to happen evicts no live window of the stream. */
  predicate Spares(l: Limiter, max: nat, e: Stamped, s: Stream) {
    !e.event.Clean? && l.Has(s) && l.At(s).reset > e.now ==>
      var l1 := BucketFor(l, max, e.event.key, e.now, e.event.order).0; l1.Has(s) && l1.At(s) == l.At(s)
  }

  /** A window with credential use stays until its minute has ended, and so does
      every window that is not evicted. */
  lemma BucketMoves(l: Limiter, max: nat, key: Key, now: int, order: seq<Key>, s: Stream, m: Meter)
    ensures var (l1, c) := BucketFor(l, max, key, now, order);
      && (Guessing(m) || Spares(l, max, Stamped(Charge(key, order), now), s) ==> Moves(l, l1, s, now, m))
      && (c == Own(key) || c == Overflow)
      && now <= l1.At(c).reset
  {
    if key !in l.table && |l.table| >= max {
      ScanSpares(l.table, order, 0, now, max, 0, None);
    }
  }

  lemma CleanupMoves(l: Limiter, now: int, s: Stream, m: Meter)
    ensures Moves(l, Cleanup(l, now), s, now, m)
  {
  }

  /** The overflow window is never evicted, nor is any while there is room. */
  lemma SparedHere(l: Limiter, max: nat, e: Stamped, s: Stream)
    requires s.Overflow? || |l.table| < max || (!e.event.Clean? && e.event.key in l.table)
    ensures Spares(l, max, e, s)
  {
  }

  // What a stream's history keeps

  predicate Mine(r: Record, s: Stream, m: Meter) { r.stream == s && Counts(m, r.route, r.signedIn) }

  /** How many requests one window of a stream admitted. */
  function Admitted(h: seq<Record>, s: Stream, m: Meter, reset: int): nat {
    if h == [] then 0
    else
      var r := h[|h| - 1];
      Admitted(h[..|h| - 1], s, m, reset) + if Mine(r, s, m) && r.reset == reset && r.admitted then 1 else 0
  }

  /** How many requests a stream admitted from a time for one minute. */
  function InSpan(h: seq<Record>, s: Stream, m: Meter, from: int): nat {
    if h == [] then 0
    else
      var r := h[|h| - 1];
      InSpan(h[..|h| - 1], s, m, from)
      + if Mine(r, s, m) && from <= r.now < from + WINDOW && r.admitted then 1 else 0
  }

  ghost predicate Dated(h: seq<Record>, s: Stream, m: Meter) {
    forall i | 0 <= i < |h| && Mine(h[i], s, m) :: h[i].reset - WINDOW <= h[i].now <= h[i].reset
  }

  /** A window with a future end that counted something is still there. */
  ghost predicate Remembered(l: Limiter, h: seq<Record>, clock: int, s: Stream, m: Meter) {
    forall i | 0 <= i < |h| && Mine(h[i], s, m) && clock < h[i].reset ::
      l.Has(s) && l.At(s).reset == h[i].reset && (Guessing(m) ==> Spends(l.At(s)))
  }

  ghost predicate Apart(h: seq<Record>, s: Stream, m: Meter) {
    forall i, j | 0 <= i < |h| && 0 <= j < |h| && Mine(h[i], s, m) && Mine(h[j], s, m) && h[i].reset < h[j].reset ::
      h[i].reset + WINDOW <= h[j].reset
  }

  ghost predicate Capped(h: seq<Record>, s: Stream, m: Meter, limit: nat) {
    forall reset :: Admitted(h, s, m, reset) <= limit
  }

  predicate Counted(l: Limiter, h: seq<Record>, clock: int, s: Stream, m: Meter) {
    l.Has(s) ==>
      && l.At(s).reset <= clock + WINDOW
      && Admitted(h, s, m, l.At(s).reset) <= Use(l.At(s), m)
      && l.At(s).auth + l.At(s).enrollment <= l.At(s).general
  }

  /** The current window is the latest one used, or began after that ended. */
  ghost predicate Latest(l: Limiter, h: seq<Record>, s: Stream, m: Meter) {
    forall i | 0 <= i < |h| && Mine(h[i], s, m) ::
      l.Has(s) ==> h[i].reset == l.At(s).reset || h[i].reset + WINDOW <= l.At(s).reset
  }

  ghost predicate Inv(l: Limiter, h: seq<Record>, clock: int, s: Stream, m: Meter, limit: nat) {
    && Dated(h, s, m)
    && Remembered(l, h, clock, s, m)
    && Latest(l, h, s, m)
    && Apart(h, s, m)
    && Capped(h, s, m, limit)
    && Counted(l, h, clock, s, m)
  }

  lemma {:induction false} NoneAdmitted(h: seq<Record>, s: Stream, m: Meter, reset: int)
    requires forall i | 0 <= i < |h| && Mine(h[i], s, m) :: h[i].reset != reset
    ensures Admitted(h, s, m, reset) == 0
  {
    if h != [] {
      NoneAdmitted(h[..|h| - 1], s, m, reset);
    }
  }

  lemma MoveKeeps(l: Limiter, l1: Limiter, h: seq<Record>, clock: int, now: int, s: Stream, m: Meter, limit: nat)
    requires Inv(l, h, clock, s, m, limit) && clock <= now && Moves(l, l1, s, now, m)
    ensures Inv(l1, h, now, s, m, limit)
  {
    if !(l1.Has(s) && l.Has(s) && l1.At(s) == l.At(s)) {
      assert forall i | 0 <= i < |h| && Mine(h[i], s, m) :: h[i].reset <= now;
      NoneAdmitted(h, s, m, now + WINDOW);
    }
  }

  lemma AppendAdmitted(h: seq<Record>, r: Record, s: Stream, m: Meter, reset: int)
    ensures Admitted(h + [r], s, m, reset) ==
            Admitted(h, s, m, reset) + if Mine(r, s, m) && r.reset == reset && r.admitted then 1 else 0
  {
    assert (h + [r])[..|h|] == h;
  }

  lemma AppendCapped(h: seq<Record>, r: Record, s: Stream, m: Meter, limit: nat)
    requires Capped(h, s, m, limit)
    requires Mine(r, s, m) && r.admitted ==> Admitted(h, s, m, r.reset) < limit
    ensures Capped(h + [r], s, m, limit)
  {
    forall reset ensures Admitted(h + [r], s, m, reset) <= limit {
      AppendAdmitted(h, r, s, m, reset);
    }
  }

  lemma AppendApart(l: Limiter, h: seq<Record>, r: Record, s: Stream, m: Meter)
    requires Dated(h, s, m) && Apart(h, s, m) && Latest(l, h, s, m)
    requires Mine(r, s, m) ==> l.Has(s) && r.reset == l.At(s).reset && r.reset - WINDOW <= r.now <= r.reset
    ensures Dated(h + [r], s, m) && Apart(h + [r], s, m) && Latest(l, h + [r], s, m)
  {
  }

  lemma AppendRemembered(l: Limiter, h: seq<Record>, r: Record, clock: int, s: Stream, m: Meter)
    requires Remembered(l, h, clock, s, m)
    requires Mine(r, s, m) ==> l.Has(s) && r.reset == l.At(s).reset && (Guessing(m) ==> Spends(l.At(s)))
    ensures Remembered(l, h + [r], clock, s, m)
  {
  }

  /** Counting a request in its window, whatever its route, changes no window's end. */
  lemma PutKeeps(l: Limiter, h: seq<Record>, now: int, c: Stream, route: Route, signedIn: bool, s: Stream, m: Meter, limit: nat)
    requires l.Has(c) && Inv(l, h, now, s, m, limit) && (signedIn ==> route.Ordinary?)
    ensures Inv(l.Put(c, Count(l.At(c), route, signedIn)), h, now, s, m, limit)
  {
    var l1 := l.Put(c, Count(l.At(c), route, signedIn));
    assert l1.Has(s) == l.Has(s);
    assert l.Has(s) ==> l1.At(s).reset == l.At(s).reset;
  }

  /** An admitted request was within the limit of everything it counts as. */
  lemma AdmittedWithin(limits: Limits, b: Bucket, route: Route, signedIn: bool, m: Meter)
    requires Admits(limits, b, route, signedIn) && Counts(m, route, signedIn) && (signedIn ==> route.Ordinary?)
    requires b.auth + b.enrollment <= b.general
    ensures Use(b, m) <= Limit(limits, m)
  {
  }

  /** Counting a request in its window and recording it. */
  lemma CountKeeps(l: Limiter, h: seq<Record>, now: int, c: Stream, route: Route, signedIn: bool, limits: Limits, s: Stream, m: Meter)
    requires l.Has(c) && now <= l.At(c).reset && (signedIn ==> route.Ordinary?)
    requires Inv(l, h, now, s, m, Limit(limits, m))
    ensures
      var b := Count(l.At(c), route, signedIn);
      Inv(l.Put(c, b), h + [Record(c, route, signedIn, now, b.reset, Admits(limits, b, route, signedIn))], now, s, m, Limit(limits, m))
  {
    var b := Count(l.At(c), route, signedIn);
    var r := Record(c, route, signedIn, now, b.reset, Admits(limits, b, route, signedIn));
    var l1 := l.Put(c, b);
    PutKeeps(l, h, now, c, route, signedIn, s, m, Limit(limits, m));
    assert l1.Has(c) && l1.At(c) == b;
    AppendApart(l1, h, r, s, m);
    AppendRemembered(l1, h, r, now, s, m);
    if Mine(r, s, m) && r.admitted {
      AdmittedWithin(limits, b, route, signedIn, m);
    }
    AppendCapped(h, r, s, m, Limit(limits, m));
    if l1.Has(s) {
      AppendAdmitted(h, r, s, m, l1.At(s).reset);
    }
  }

  lemma StepKeeps(limits: Limits, max: nat, w: World, e: Stamped, s: Stream, m: Meter)
    requires w.clock <= e.now && (Guessing(m) || Spares(w.limiter, max, e, s))
    requires Inv(w.limiter, w.history, w.clock, s, m, Limit(limits, m))
    ensures var v := Step(limits, max, w, e); Inv(v.limiter, v.history, v.clock, s, m, Limit(limits, m))
  {
    var limit := Limit(limits, m);
    if e.event.Clean? {
      CleanupMoves(w.limiter, e.now, s, m);
      MoveKeeps(w.limiter, Cleanup(w.limiter, e.now), w.history, w.clock, e.now, s, m, limit);
    } else {
      var key, order := e.event.key, e.event.order;
      BucketMoves(w.limiter, max, key, e.now, order, s, m);
      var (l, c) := BucketFor(w.limiter, max, key, e.now, order);
      MoveKeeps(w.limiter, l, w.history, w.clock, e.now, s, m, limit);
      var route := if e.event.Ask? then e.event.route else Ordinary;
      CountKeeps(l, w.history, e.now, c, route, SignedIn(route, e.event.Ask? && e.event.token), limits, s, m);
    }
  }

  /** No event of the run evicts a live window of the stream. */
  ghost predicate NeverEvicted(limits: Limits, max: nat, start: int, es: seq<Stamped>, s: Stream) {
    forall i | 0 <= i < |es| :: Spares(Exec(limits, max, start, es[..i]).limiter, max, es[i], s)
  }

  lemma {:induction false} RunKeeps(limits: Limits, max: nat, start: int, es: seq<Stamped>, s: Stream, m: Meter)
    requires Legal(start, es) && (Guessing(m) || NeverEvicted(limits, max, start, es, s))
    ensures var w := Exec(limits, max, start, es);
      w.clock == LastTime(start, es) && Inv(w.limiter, w.history, w.clock, s, m, Limit(limits, m))
  {
    if es != [] {
      var n := |es| - 1;
      forall i | 0 <= i < n ensures es[..n][..i] == es[..i] {
      }
      RunKeeps(limits, max, start, es[..n], s, m);
      StepKeeps(limits, max, Exec(limits, max, start, es[..n]), es[n], s, m);
    }
  }

  // A minute meets at most two windows

  ghost predicate Within(h: seq<Record>, s: Stream, m: Meter, from: int, r1: int, r2: int) {
    forall i | 0 <= i < |h| && Mine(h[i], s, m) && from <= h[i].now < from + WINDOW :: h[i].reset == r1 || h[i].reset == r2
  }

  lemma {:induction false} TwoWindows(h: seq<Record>, s: Stream, m: Meter, from: int, r1: int, r2: int)
    requires Within(h, s, m, from, r1, r2)
    ensures InSpan(h, s, m, from) <= Admitted(h, s, m, r1) + Admitted(h, s, m, r2)
  {
    if h != [] {
      TwoWindows(h[..|h| - 1], s, m, from, r1, r2);
    }
  }

  lemma NoThird(h: seq<Record>, s: Stream, m: Meter, from: int) returns (r1: int, r2: int)
    requires Dated(h, s, m) && Apart(h, s, m)
    ensures Within(h, s, m, from, r1, r2)
  {
    r1, r2 := 0, 0;
    if i :| 0 <= i < |h| && Mine(h[i], s, m) && from <= h[i].now < from + WINDOW {
      r1 := h[i].reset;
      if j :| 0 <= j < |h| && Mine(h[j], s, m) && from <= h[j].now < from + WINDOW && h[j].reset != r1 {
        r2 := h[j].reset;
      } else {
        r2 := r1;
      }
    }
  }

  lemma SpanBounded(limits: Limits, max: nat, start: int, es: seq<Stamped>, s: Stream, m: Meter, from: int)
    requires Legal(start, es) && (Guessing(m) || NeverEvicted(limits, max, start, es, s))
    ensures InSpan(Exec(limits, max, start, es).history, s, m, from) <= 2 * Limit(limits, m)
  {
    RunKeeps(limits, max, start, es, s, m);
    var h := Exec(limits, max, start, es).history;
    var r1, r2 := NoThird(h, s, m, from);
    TwoWindows(h, s, m, from, r1, r2);
    assert Admitted(h, s, m, r1) <= Limit(limits, m) && Admitted(h, s, m, r2) <= Limit(limits, m);
  }

  /** No sixty seconds admit more than twice the credential (or enrollment)
      limit from one host's own windows, nor from the overflow window for all
      hosts together, whatever else happens and however small the table is. */
  lemma AtMostTwice(limits: Limits, max: nat, start: int, es: seq<Stamped>, s: Stream, m: Meter, from: int)
    requires Guessing(m) && Legal(start, es)
    ensures InSpan(Exec(limits, max, start, es).history, s, m, from) <= 2 * Limit(limits, m)
  {
    SpanBounded(limits, max, start, es, s, m, from);
  }

  /** The same for requests without a session, late charges included, and for
      signed-in ones, from the overflow window always and from a host's own
      windows as long as none of them is evicted alive. */
  lemma GeneralAtMostTwice(limits: Limits, max: nat, start: int, es: seq<Stamped>, s: Stream, m: Meter, from: int)
    requires Legal(start, es) && (s.Overflow? || NeverEvicted(limits, max, start, es, s))
    ensures InSpan(Exec(limits, max, start, es).history, s, m, from) <= 2 * Limit(limits, m)
  {
    if s.Overflow? {
      forall i | 0 <= i < |es| ensures Spares(Exec(limits, max, start, es[..i]).limiter, max, es[i], s) {
        SparedHere(Exec(limits, max, start, es[..i]).limiter, max, es[i], s);
      }
    }
    SpanBounded(limits, max, start, es, s, m, from);
  }

  // The bound is reached, and eviction breaks it

  lemma Extend(limits: Limits, max: nat, start: int, es: seq<Stamped>, e: Stamped)
    requires Legal(start, es) && LastTime(start, es) <= e.now
    ensures Legal(start, es + [e]) && LastTime(start, es + [e]) == e.now
    ensures Exec(limits, max, start, es + [e]) == Step(limits, max, Exec(limits, max, start, es), e)
  {
    assert (es + [e])[..|es|] == es;
  }

  lemma AppendSpan(h: seq<Record>, r: Record, s: Stream, m: Meter, from: int)
    ensures InSpan(h + [r], s, m, from) ==
            InSpan(h, s, m, from) + if Mine(r, s, m) && from <= r.now < from + WINDOW && r.admitted then 1 else 0
  {
    assert (h + [r])[..|h|] == h;
  }

  /** A request that a meter counts: its route, and whether it carries a token. */
  function CountedRoute(m: Meter): Route {
    match m
    case Credentials => Credential
    case Enrollments => Enrollment
    case General => Ordinary
    case SignedIns => Ordinary
  }

  /** Nothing but such requests has been counted in the window. */
  predicate Pure(b: Bucket, m: Meter, n: nat) { Use(b, m) == n && (!m.SignedIns? ==> b.general == n) }

  /** One more request in a host's current window, within the limits. */
  lemma OneGuess(limits: Limits, max: nat, w: World, key: Key, now: int, m: Meter, from: int, n: nat)
    requires key in w.limiter.table && w.limiter.table[key].reset >= now && from <= now < from + WINDOW
    requires Pure(w.limiter.table[key], m, n) && n < Limit(limits, m)
    ensures var v := Step(limits, max, w, Stamped(Ask(key, CountedRoute(m), m.SignedIns?, []), now));
      && key in v.limiter.table && v.limiter.table[key] == Count(w.limiter.table[key], CountedRoute(m), m.SignedIns?)
      && InSpan(v.history, Own(key), m, from) == InSpan(w.history, Own(key), m, from) + 1
  {
    var (l, r) := Request(w.limiter, limits, max, key, now, CountedRoute(m), m.SignedIns?, []);
    assert BucketFor(w.limiter, max, key, now, []) == (w.limiter, Own(key));
    AppendSpan(w.history, r, Own(key), m, from);
  }

  /** As many requests at one time as the limits allow, in a window that has none. */
  lemma {:induction false} Guesses(limits: Limits, max: nat, es: seq<Stamped>, key: Key, now: int, m: Meter, from: int, n: nat)
      returns (fs: seq<Stamped>)
    requires n <= Limit(limits, m) && Legal(0, es) && LastTime(0, es) <= now && from <= now < from + WINDOW
    requires var t := Exec(limits, max, 0, es).limiter.table; key in t && t[key].reset >= now && Pure(t[key], m, 0)
    ensures Legal(0, fs) && (LastTime(0, fs) == now || fs == es)
    ensures var w := Exec(limits, max, 0, fs);
      && key in w.limiter.table && Pure(w.limiter.table[key], m, n)
      && w.limiter.table[key].reset == Exec(limits, max, 0, es).limiter.table[key].reset
      && |w.limiter.table| == |Exec(limits, max, 0, es).limiter.table|
      && InSpan(w.history, Own(key), m, from) == InSpan(Exec(limits, max, 0, es).history, Own(key), m, from) + n
  {
    fs := es;
    if n > 0 {
      fs := Guesses(limits, max, es, key, now, m, from, n - 1);
      var w := Exec(limits, max, 0, fs);
      var e := Stamped(Ask(key, CountedRoute(m), m.SignedIns?, []), now);
      OneGuess(limits, max, w, key, now, m, from, n - 1);
      Extend(limits, max, 0, fs, e);
      assert Step(limits, max, w, e).limiter.table.Keys == w.limiter.table.Keys;
      fs := fs + [e];
    }
  }

  /** A new window, and all the requests it allows at a later time within it. */
  lemma FullWindow(limits: Limits, max: nat, es: seq<Stamped>, key: Key, began: int, at: int, m: Meter, from: int)
      returns (fs: seq<Stamped>)
    requires Legal(0, es) && LastTime(0, es) <= began <= at <= began + WINDOW && from <= at < from + WINDOW
    requires var t := Exec(limits, max, 0, es).limiter.table;
      if key in t then t[key].reset < began else |t| < max
    ensures Legal(0, fs) && LastTime(0, fs) <= at
    ensures var w := Exec(limits, max, 0, fs);
      && key in w.limiter.table && w.limiter.table[key].reset == began + WINDOW
      && InSpan(w.history, Own(key), m, from) == InSpan(Exec(limits, max, 0, es).history, Own(key), m, from) + Limit(limits, m)
  {
    var e := Stamped(Ask(key, Opener(m), !m.SignedIns?, []), began);
    Extend(limits, max, 0, es, e);
    OpensWindow(limits, max, Exec(limits, max, 0, es), key, began, m, from);
    fs := Guesses(limits, max, es + [e], key, at, m, from, Limit(limits, m));
  }

  /** The bound is reached, for every meter and every limit: a window opened by a
      request of another kind takes all it allows at its last instant, and the
      next one as many an instant later. */
  lemma TwiceIsReached(limits: Limits, max: nat, key: Key, m: Meter) returns (es: seq<Stamped>)
    requires max >= 1
    ensures Legal(0, es)
    ensures InSpan(Exec(limits, max, 0, es).history, Own(key), m, WINDOW) == 2 * Limit(limits, m)
  {
    es := FullWindow(limits, max, [], key, 0, WINDOW, m, WINDOW);
    es := FullWindow(limits, max, es, key, WINDOW + 1, WINDOW + 1, m, WINDOW);
  }

  /** The route of a request that the meter does not count. */
  function Opener(m: Meter): Route { if m.SignedIns? then Public else Ordinary }

  /** Such a request starts a window when the last one is over. */
  lemma OpensWindow(limits: Limits, max: nat, w: World, key: Key, now: int, m: Meter, from: int)
    requires key in w.limiter.table ==> w.limiter.table[key].reset < now
    requires key in w.limiter.table || |w.limiter.table| < max
    ensures var v := Step(limits, max, w, Stamped(Ask(key, Opener(m), !m.SignedIns?, []), now));
      && key in v.limiter.table && v.limiter.table[key] == Count(Fresh(now), Opener(m), !m.SignedIns?)
      && InSpan(v.history, Own(key), m, from) == InSpan(w.history, Own(key), m, from)
  {
    var (l, r) := Request(w.limiter, limits, max, key, now, Opener(m), !m.SignedIns?, []);
    assert BucketFor(w.limiter, max, key, now, []) == (w.limiter.(table := w.limiter.table[key := Fresh(now)]), Own(key));
    AppendSpan(w.history, r, Own(key), m, from);
  }

  /** A request that evicts the only other window is admitted. */
  lemma EvictsOther(limits: Limits, w: World, key: Key, other: Key)
    requires limits.general >= 1 && key != other && w.limiter.table == map[other := Count(Fresh(0), Ordinary, false)]
    ensures var v := Step(limits, 1, w, Stamped(Ask(key, Ordinary, false, [other]), 0));
      && v.limiter.table == map[key := Count(Fresh(0), Ordinary, false)]
      && v.history == w.history + [Record(Own(key), Ordinary, false, 0, WINDOW, true)]
  {
    var t := w.limiter.table;
    assert Scan(t, [other], 1, 0, 1, 1, Some(other)) == (Without(t, other), true);
    assert Scan(t, [other], 0, 0, 1, 0, None) == Scan(t, [other], 1, 0, 1, 1, Better(t, None, other));
    assert BucketFor(w.limiter, 1, key, 0, [other]) == (w.limiter.(table := map[key := Fresh(0)]), Own(key));
  }

  /** Each evicts the other, and the first is admitted once more. */
  lemma EvictsTwice(limits: Limits, a: Key, b: Key, es: seq<Stamped>) returns (fs: seq<Stamped>)
    requires limits.general >= 1 && a != b && Legal(0, es) && LastTime(0, es) == 0
    requires Exec(limits, 1, 0, es).limiter.table == map[a := Count(Fresh(0), Ordinary, false)]
    ensures Legal(0, fs) && LastTime(0, fs) == 0
    ensures Exec(limits, 1, 0, fs).limiter.table == map[a := Count(Fresh(0), Ordinary, false)]
    ensures InSpan(Exec(limits, 1, 0, fs).history, Own(a), General, 0)
            == InSpan(Exec(limits, 1, 0, es).history, Own(a), General, 0) + 1
  {
    var e, f := Stamped(Ask(a, Ordinary, false, [b]), 0), Stamped(Ask(b, Ordinary, false, [a]), 0);
    var w := Exec(limits, 1, 0, es);
    Extend(limits, 1, 0, es, f);
    EvictsOther(limits, w, b, a);
    var v := Exec(limits, 1, 0, es + [f]);
    Extend(limits, 1, 0, es + [f], e);
    EvictsOther(limits, v, a, b);
    AppendSpan(w.history, Record(Own(b), Ordinary, false, 0, WINDOW, true), Own(a), General, 0);
    AppendSpan(v.history, Record(Own(a), Ordinary, false, 0, WINDOW, true), Own(a), General, 0);
    fs := es + [f] + [e];
  }

  lemma AskFirst(limits: Limits, w: World, a: Key, order: seq<Key>)
    requires limits.general >= 1 && w.limiter == Limiter(map[], None)
    ensures var v := Step(limits, 1, w, Stamped(Ask(a, Ordinary, false, order), 0));
      && v.limiter.table == map[a := Count(Fresh(0), Ordinary, false)]
      && v.history == w.history + [Record(Own(a), Ordinary, false, 0, WINDOW, true)]
  {
    assert BucketFor(w.limiter, 1, a, 0, order) == (Limiter(map[a := Fresh(0)], None), Own(a));
  }

  /** The first host's first request. */
  lemma FirstOne(limits: Limits, a: Key, es: seq<Stamped>) returns (fs: seq<Stamped>)
    requires limits.general >= 1 && Legal(0, es) && LastTime(0, es) == 0
    requires var w := Exec(limits, 1, 0, es); w.limiter == Limiter(map[], None) && InSpan(w.history, Own(a), General, 0) == 0
    ensures Legal(0, fs) && LastTime(0, fs) == 0
    ensures Exec(limits, 1, 0, fs).limiter.table == map[a := Count(Fresh(0), Ordinary, false)]
    ensures InSpan(Exec(limits, 1, 0, fs).history, Own(a), General, 0) == 1
  {
    var e := Stamped(Ask(a, Ordinary, false, []), 0);
    var w := Exec(limits, 1, 0, es);
    Extend(limits, 1, 0, es, e);
    AskFirst(limits, w, a, []);
    AppendSpan(w.history, Record(Own(a), Ordinary, false, 0, WINDOW, true), Own(a), General, 0);
    fs := es + [e];
  }

  /** Without that condition there is no bound on the general count: two hosts that
      evict each other from a table of one are admitted any number of times in
      one instant. */
  lemma {:induction false} EvictionForgets(limits: Limits, a: Key, b: Key, n: nat) returns (es: seq<Stamped>)
    requires limits.general >= 1 && a != b && n >= 1
    ensures Legal(0, es) && LastTime(0, es) == 0
    ensures Exec(limits, 1, 0, es).limiter.table == map[a := Count(Fresh(0), Ordinary, false)]
    ensures InSpan(Exec(limits, 1, 0, es).history, Own(a), General, 0) == n
  {
    if n == 1 {
      es := FirstOne(limits, a, []);
    } else {
      es := EvictionForgets(limits, a, b, n - 1);
      es := EvictsTwice(limits, a, b, es);
    }
  }

  // What is admitted

  /** How many requests one window of a stream has counted, admitted or not. */
  function Seen(h: seq<Record>, s: Stream, m: Meter, reset: int): nat {
    if h == [] then 0
    else Seen(h[..|h| - 1], s, m, reset) + if Mine(h[|h| - 1], s, m) && h[|h| - 1].reset == reset then 1 else 0
  }

  /** The configured limit of a meter. */
  function Configured(limits: Limits, m: Meter): nat {
    match m
    case Credentials => limits.auth
    case Enrollments => limits.enrollment
    case General => limits.general
    case SignedIns => limits.signedIn
  }

  lemma AppendSeen(h: seq<Record>, r: Record, s: Stream, m: Meter, reset: int)
    ensures Seen(h + [r], s, m, reset) == Seen(h, s, m, reset) + if Mine(r, s, m) && r.reset == reset then 1 else 0
  {
    assert (h + [r])[..|h|] == h;
  }

  lemma {:induction false} NoneSeen(h: seq<Record>, s: Stream, m: Meter, reset: int)
    requires forall i | 0 <= i < |h| && Mine(h[i], s, m) :: h[i].reset != reset
    ensures Seen(h, s, m, reset) == 0
  {
    if h != [] {
      NoneSeen(h[..|h| - 1], s, m, reset);
    }
  }

  /** A window never counts more than the history shows, and exactly that as long
      as no live window of its stream was evicted. */
  predicate Tallied(l: Limiter, h: seq<Record>, s: Stream, m: Meter, exact: bool) {
    l.Has(s) ==>
      && Use(l.At(s), m) <= Seen(h, s, m, l.At(s).reset)
      && (exact ==> Use(l.At(s), m) == Seen(h, s, m, l.At(s).reset))
  }

  lemma BucketTallied(l: Limiter, max: nat, h: seq<Record>, key: Key, now: int, order: seq<Key>, s: Stream, m: Meter, exact: bool,
                      clock: int, limit: nat)
    requires Tallied(l, h, s, m, exact) && clock <= now
    requires exact ==> Inv(l, h, clock, s, m, limit) && Moves(l, BucketFor(l, max, key, now, order).0, s, now, m)
    ensures Tallied(BucketFor(l, max, key, now, order).0, h, s, m, exact)
  {
    var l1 := BucketFor(l, max, key, now, order).0;
    if key !in l.table && |l.table| >= max {
      ScanSpares(l.table, order, 0, now, max, 0, None);
    }
    if l1.Has(s) && !(l.Has(s) && l1.At(s) == l.At(s)) {
      assert l1.At(s) == Fresh(now);
      if exact {
        assert forall i | 0 <= i < |h| && Mine(h[i], s, m) :: h[i].reset <= now;
        NoneSeen(h, s, m, now + WINDOW);
      }
    }
  }

  lemma CountTallied(l: Limiter, h: seq<Record>, c: Stream, r: Record, s: Stream, m: Meter, exact: bool)
    requires l.Has(c) && Tallied(l, h, s, m, exact) && r.stream == c && r.reset == l.At(c).reset
    ensures Tallied(l.Put(c, Count(l.At(c), r.route, r.signedIn)), h + [r], s, m, exact)
  {
    if l.Has(s) {
      AppendSeen(h, r, s, m, l.At(s).reset);
    }
  }

  lemma StepTallied(limits: Limits, max: nat, w: World, e: Stamped, s: Stream, m: Meter, exact: bool)
    requires w.clock <= e.now && Tallied(w.limiter, w.history, s, m, exact)
    requires exact ==> (Guessing(m) || Spares(w.limiter, max, e, s)) && Inv(w.limiter, w.history, w.clock, s, m, Limit(limits, m))
    ensures var v := Step(limits, max, w, e); Tallied(v.limiter, v.history, s, m, exact)
  {
    if !e.event.Clean? {
      var key, order := e.event.key, e.event.order;
      BucketMoves(w.limiter, max, key, e.now, order, s, m);
      BucketTallied(w.limiter, max, w.history, key, e.now, order, s, m, exact, w.clock, Limit(limits, m));
      var (l, c) := BucketFor(w.limiter, max, key, e.now, order);
      var v := Step(limits, max, w, e);
      CountTallied(l, w.history, c, v.history[|w.history|], s, m, exact);
    }
  }

  lemma {:induction false} RunTallied(limits: Limits, max: nat, start: int, es: seq<Stamped>, s: Stream, m: Meter, exact: bool)
    requires Legal(start, es) && (exact ==> Guessing(m) || NeverEvicted(limits, max, start, es, s))
    ensures var w := Exec(limits, max, start, es); Tallied(w.limiter, w.history, s, m, exact) && w.clock == LastTime(start, es)
  {
    if es != [] {
      var n := |es| - 1;
      forall i | 0 <= i < n ensures es[..n][..i] == es[..i] {
      }
      RunTallied(limits, max, start, es[..n], s, m, exact);
      if exact {
        RunKeeps(limits, max, start, es[..n], s, m);
      }
      StepTallied(limits, max, Exec(limits, max, start, es[..n]), es[n], s, m, exact);
    }
  }

  /** Room is left in a window for one more request of a kind. */
  predicate Room(limits: Limits, h: seq<Record>, r: Record, m: Meter) {
    Counts(m, r.route, r.signedIn) ==> Seen(h, r.stream, m, r.reset) < Configured(limits, m)
  }

  ghost predicate AllRoom(limits: Limits, h: seq<Record>, r: Record) { forall m :: Room(limits, h, r, m) }

  /** After any run, a request or late charge of any kind, in a window of its own or
      the overflow window, is admitted whenever that window has counted fewer
      requests than the limit of everything it counts as; and only then, as long as
      no live window of the stream was evicted. */
  lemma JudgedExactly(limits: Limits, max: nat, start: int, es: seq<Stamped>, e: Stamped)
    requires Legal(start, es) && LastTime(start, es) <= e.now && !e.event.Clean?
    ensures var w := Exec(limits, max, start, es);
      var h := Step(limits, max, w, e).history;
      && |h| == |w.history| + 1
      && var r := h[|w.history|];
      && (AllRoom(limits, w.history, r) ==> r.admitted)
      && (NeverEvicted(limits, max, start, es + [e], r.stream) ==> (AllRoom(limits, w.history, r) <==> r.admitted))
  {
    var w := Exec(limits, max, start, es);
    var r, b := Judged(limits, max, w, e);
    forall m ensures Use(b, m) <= Seen(w.history, r.stream, m, r.reset) {
      RunTallied(limits, max, start, es, r.stream, m, false);
      BucketTallied(w.limiter, max, w.history, e.event.key, e.now, e.event.order, r.stream, m, false, w.clock, 0);
    }
    if NeverEvicted(limits, max, start, es + [e], r.stream) {
      forall m ensures Use(b, m) == Seen(w.history, r.stream, m, r.reset) {
        ExactTally(limits, max, start, es, e, r.stream, m);
      }
      RoomIsRoom(limits, w.history, r, b, true);
    }
    RoomIsRoom(limits, w.history, r, b, false);
  }

  /** The record of a request or charge, and the window it was judged in. */
  lemma Judged(limits: Limits, max: nat, w: World, e: Stamped) returns (r: Record, b: Bucket)
    requires !e.event.Clean?
    ensures Step(limits, max, w, e).history == w.history + [r]
    ensures var l := BucketFor(w.limiter, max, e.event.key, e.now, e.event.order).0;
      l.Has(r.stream) && l.At(r.stream) == b && r.reset == b.reset
    ensures r.admitted <==> forall m :: Counts(m, r.route, r.signedIn) ==> Use(b, m) < Configured(limits, m)
  {
    var (l, c) := BucketFor(w.limiter, max, e.event.key, e.now, e.event.order);
    b := l.At(c);
    r := Step(limits, max, w, e).history[|w.history|];
    AdmitsWithRoom(limits, b, r.route, r.signedIn);
  }

  lemma RoomIsRoom(limits: Limits, h: seq<Record>, r: Record, b: Bucket, exact: bool)
    requires r.admitted <==> forall m :: Counts(m, r.route, r.signedIn) ==> Use(b, m) < Configured(limits, m)
    requires forall m :: Use(b, m) <= Seen(h, r.stream, m, r.reset)
    requires exact ==> forall m :: Use(b, m) == Seen(h, r.stream, m, r.reset)
    ensures AllRoom(limits, h, r) ==> r.admitted
    ensures exact && r.admitted ==> AllRoom(limits, h, r)
  {
    if AllRoom(limits, h, r) {
      forall m | Counts(m, r.route, r.signedIn) ensures Use(b, m) < Configured(limits, m) {
        assert Room(limits, h, r, m);
      }
    }
    if exact && r.admitted {
      forall m ensures Room(limits, h, r, m) {
        assert Use(b, m) == Seen(h, r.stream, m, r.reset);
      }
    }
  }

  /** A request is admitted exactly when it finds room in every count it goes to. */
  lemma AdmitsWithRoom(limits: Limits, b: Bucket, route: Route, signedIn: bool)
    requires signedIn ==> route.Ordinary?
    ensures Admits(limits, Count(b, route, signedIn), route, signedIn) <==>
            forall m :: Counts(m, route, signedIn) ==> Use(b, m) < Configured(limits, m)
  {
    assert Use(b, Credentials) == b.auth && Use(b, Enrollments) == b.enrollment;
    assert Use(b, General) == b.general && Use(b, SignedIns) == b.signedIn;
  }

  lemma ExactTally(limits: Limits, max: nat, start: int, es: seq<Stamped>, e: Stamped, c: Stream, m: Meter)
    requires Legal(start, es) && LastTime(start, es) <= e.now && !e.event.Clean? && NeverEvicted(limits, max, start, es + [e], c)
    ensures var w := Exec(limits, max, start, es);
      Tallied(BucketFor(w.limiter, max, e.event.key, e.now, e.event.order).0, w.history, c, m, true)
  {
    var w := Exec(limits, max, start, es);
    forall i | 0 <= i < |es| ensures Spares(Exec(limits, max, start, es[..i]).limiter, max, es[i], c) {
      assert (es + [e])[..i] == es[..i] && (es + [e])[i] == es[i];
    }
    assert Spares(w.limiter, max, e, c) by {
      assert (es + [e])[..|es|] == es && (es + [e])[|es|] == e;
    }
    RunTallied(limits, max, start, es, c, m, true);
    RunKeeps(limits, max, start, es, c, m);
    BucketMoves(w.limiter, max, e.event.key, e.now, e.event.order, c, m);
    BucketTallied(w.limiter, max, w.history, e.event.key, e.now, e.event.order, c, m, true, w.clock, Limit(limits, m));
  }
}
