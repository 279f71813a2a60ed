/** One token bucket per tenant, at most maxBuckets of them (TenantRateLimiter). */
module TenantLimits {
  import opened Wrappers
  import opened TokenBucket

  type Tenant = string

  datatype Entry = Entry(capacity: int, rate: real, bucket: Bucket)

  /** The dictionary of buckets; order lists its keys, oldest first. */
  datatype Limits = Limits(order: seq<Tenant>, entries: map<Tenant, Entry>)

  datatype Request =
    | Check(tenant: Tenant, qps: int, burst: int)
    | Remaining(tenant: Tenant)
    | Remove(tenant: Tenant)

  datatype Call = Call(time: real, request: Request)

  const NO_LIMITS := Limits([], map[])

  ghost predicate Valid(l: Limits) {
    && (forall t :: t in l.entries <==> t in l.order)
    && (forall i, j :: 0 <= i < j < |l.order| ==> l.order[i] != l.order[j])
  }

  /** Making room raises when there is no bucket to evict. */
  predicate Raises(l: Limits, max: int, c: Call) {
    c.request.Check? && c.request.tenant !in l.entries && |l.order| >= max && l.order == []
  }

  function Evicted(l: Limits, max: int): Limits {
    if |l.order| >= max && l.order != [] then Limits(l.order[1..], l.entries - {l.order[0]}) else l
  }

  /** _get_bucket. */
  function WithBucket(l: Limits, max: int, t: Tenant, qps: int, burst: int, now: real): Limits {
    if t in l.entries then l
    else
      var room := Evicted(l, max);
      Limits(room.order + [t], room.entries[t := Entry(burst, qps as real, Full(burst, now))])
  }

  function Tried(e: Entry, op: Op, now: real): Entry {
    e.(bucket := After(e.bucket, e.capacity, e.rate, Event(now, op)))
  }

  function Drop(order: seq<Tenant>, t: Tenant): seq<Tenant> {
    if order == [] then [] else if order[0] == t then order[1..] else [order[0]] + Drop(order[1..], t)
  }

  function Step(l: Limits, max: int, c: Call): Limits {
    if Raises(l, max, c) then l
    else
      var t := c.request.tenant;
      match c.request
      case Check(_, qps, burst) =>
        var l' := WithBucket(l, max, t, qps, burst, c.time);
        l'.(entries := l'.entries[t := Tried(l'.entries[t], Acquire(1), c.time)])
      case Remaining(_) =>
        if t in l.entries then l.(entries := l.entries[t := Tried(l.entries[t], Refill, c.time)]) else l
      case Remove(_) => Limits(Drop(l.order, t), l.entries - {t})
  }

  /** A request of the tenant is let through. */
  predicate Passes(l: Limits, max: int, c: Call) {
    && c.request.Check? && !Raises(l, max, c)
    && var l' := WithBucket(l, max, c.request.tenant, c.request.qps, c.request.burst, c.time);
       var e := l'.entries[c.request.tenant];
       Grants(e.bucket, e.capacity, e.rate, Event(c.time, Acquire(1)))
  }

  lemma {:induction false} DropIs(order: seq<Tenant>, t: Tenant)
    requires forall i, j :: 0 <= i < j < |order| ==> order[i] != order[j]
    ensures forall x :: x in Drop(order, t) <==> x in order && x != t
    ensures forall i, j :: 0 <= i < j < |Drop(order, t)| ==> Drop(order, t)[i] != Drop(order, t)[j]
    ensures |Drop(order, t)| <= |order|
  {
    if order != [] {
      var rest := order[1..];
      assert order == [order[0]] + rest;
      forall x | x in rest ensures x != order[0] {
        var k :| 0 <= k < |rest| && rest[k] == x;
        assert rest[k] == order[k + 1];
      }
      if order[0] != t {
        DropIs(rest, t);
        var kept := Drop(rest, t);
        assert forall k :: 0 <= k < |kept| ==> kept[k] in kept;
      }
    }
  }

  lemma EvictedKeepsValid(l: Limits, max: int)
    requires Valid(l)
    ensures Valid(Evicted(l, max)) && forall t <- Evicted(l, max).entries :: t in l.entries
    ensures |l.order| <= max && max >= 1 ==> |Evicted(l, max).order| < max
  {
    if l.order != [] {
      assert l.order == [l.order[0]] + l.order[1..];
    }
  }

  lemma AddedKeepsValid(l: Limits, t: Tenant, e: Entry)
    requires Valid(l) && t !in l.entries
    ensures Valid(Limits(l.order + [t], l.entries[t := e]))
  {
  }

  lemma ChangedKeepsValid(l: Limits, t: Tenant, e: Entry)
    requires Valid(l) && t in l.entries
    ensures Valid(l.(entries := l.entries[t := e]))
  {
  }

  lemma WithBucketBound(l: Limits, max: int, t: Tenant, qps: int, burst: int, now: real)
    requires Valid(l) && |l.order| <= Max(0, max) && (t in l.entries || |l.order| < max || l.order != [])
    ensures
      var l' := WithBucket(l, max, t, qps, burst, now);
      Valid(l') && |l'.order| <= Max(0, max) && t in l'.entries
  {
    hide Valid;
    EvictedKeepsValid(l, max);
    if t !in l.entries {
      AddedKeepsValid(Evicted(l, max), t, Entry(burst, qps as real, Full(burst, now)));
    }
  }

  lemma DroppedKeepsValid(l: Limits, t: Tenant)
    requires Valid(l)
    ensures Valid(Limits(Drop(l.order, t), l.entries - {t})) && |Drop(l.order, t)| <= |l.order|
  {
    DropIs(l.order, t);
    hide Drop;
  }

  /** The dictionary never holds more than maxBuckets buckets, and one entry per tenant. */
  lemma StepKeepsBound(l: Limits, max: int, c: Call)
    requires Valid(l) && |l.order| <= Max(0, max)
    ensures Valid(Step(l, max, c)) && |Step(l, max, c).order| <= Max(0, max)
  {
    hide Valid, Evicted, Drop, Tried;
    if !Raises(l, max, c) {
      var t := c.request.tenant;
      match c.request
      case Check(_, qps, burst) =>
        WithBucketBound(l, max, t, qps, burst, c.time);
        var l' := WithBucket(l, max, t, qps, burst, c.time);
        ChangedKeepsValid(l', t, Tried(l'.entries[t], Acquire(1), c.time));
      case Remaining(_) =>
        if t in l.entries {
          ChangedKeepsValid(l, t, Tried(l.entries[t], Refill, c.time));
        }
      case Remove(_) => DroppedKeepsValid(l, t);
    }
  }

  function RunOf(l: Limits, max: int, calls: seq<Call>): Limits
    decreases |calls|
  {
    if calls == [] then l else RunOf(Step(l, max, calls[0]), max, calls[1..])
  }

  lemma {:induction false} RunKeepsBound(l: Limits, max: int, calls: seq<Call>)
    requires Valid(l) && |l.order| <= Max(0, max)
    ensures Valid(RunOf(l, max, calls)) && |RunOf(l, max, calls).order| <= Max(0, max)
    decreases |calls|
  {
    if calls != [] {
      StepKeepsBound(l, max, calls[0]);
      hide Valid, Step;
      RunKeepsBound(Step(l, max, calls[0]), max, calls[1..]);
    }
  }

  /** In every state of every run that starts empty there are at most maxBuckets buckets, one per tenant. */
  lemma AlwaysBounded(max: int, calls: seq<Call>)
    ensures var l := RunOf(NO_LIMITS, max, calls); Valid(l) && |l.entries| == |l.order| <= Max(0, max)
  {
    RunKeepsBound(NO_LIMITS, max, calls);
    KeysAreOrder(RunOf(NO_LIMITS, max, calls));
  }

  lemma KeysAreOrder(l: Limits)
    requires Valid(l)
    ensures |l.entries| == |l.order|
  {
    DistinctSize(l.order);
    assert l.entries.Keys == set t | t in l.order;
    assert |l.entries| == |l.entries.Keys|;
  }

  lemma {:induction false} DistinctSize(order: seq<Tenant>)
    requires forall i, j :: 0 <= i < j < |order| ==> order[i] != order[j]
    ensures |set t | t in order| == |order|
  {
    if order != [] {
      var init, last := order[..|order| - 1], order[|order| - 1];
      DistinctSize(init);
      assert order == init + [last];
      assert (set t | t in order) == (set t | t in init) + {last};
    }
  }

  // ---------------------------------------------------------------- one tenant's bucket over a run

  /** What a call does to the bucket of x. A bucket made anew is one that is reset to full. */
  function EventsOf(l: Limits, max: int, c: Call, x: Tenant): seq<Event> {
    if c.request.tenant != x || Raises(l, max, c) then []
    else match c.request
      case Check(_, _, _) =>
        (if x in l.entries then [] else [Event(c.time, Reset)]) + [Event(c.time, Acquire(1))]
      case Remaining(_) => if x in l.entries then [Event(c.time, Refill)] else []
      case Remove(_) => []
  }

  function Project(l: Limits, max: int, calls: seq<Call>, x: Tenant): seq<Event>
    decreases |calls|
  {
    if calls == [] then [] else EventsOf(l, max, calls[0], x) + Project(Step(l, max, calls[0]), max, calls[1..], x)
  }

  /** Requests of x let through at times in [s, t]. */
  function PassedIn(l: Limits, max: int, calls: seq<Call>, x: Tenant, s: real, t: real): nat
    decreases |calls|
  {
    if calls == [] then 0
    else
      var c := calls[0];
      (if c.request.tenant == x && s <= c.time <= t && Passes(l, max, c) then 1 else 0)
      + PassedIn(Step(l, max, c), max, calls[1..], x, s, t)
  }

  predicate Makes(l: Limits, max: int, c: Call, x: Tenant) {
    c.request.Check? && c.request.tenant == x && !Raises(l, max, c) && x !in l.entries
  }

  /** Buckets made for x at times in [s, t]. */
  function MadeIn(l: Limits, max: int, calls: seq<Call>, x: Tenant, s: real, t: real): nat
    decreases |calls|
  {
    if calls == [] then 0
    else
      var c := calls[0];
      (if Makes(l, max, c, x) && s <= c.time <= t then 1 else 0)
      + MadeIn(Step(l, max, c), max, calls[1..], x, s, t)
  }

  predicate InTime(from: real, calls: seq<Call>)
    decreases |calls|
  {
    calls == [] || (from <= calls[0].time && InTime(calls[0].time, calls[1..]))
  }

  /** x always asks with the same limits. */
  predicate Steady(calls: seq<Call>, x: Tenant, qps: int, burst: int) {
    forall c <- calls :: c.request.Check? && c.request.tenant == x ==> c.request.qps == qps && c.request.burst == burst
  }

  /** b is the bucket of x whenever x has one. */
  predicate Shows(l: Limits, x: Tenant, qps: int, burst: int, b: Bucket) {
    x in l.entries ==> l.entries[x] == Entry(burst, qps as real, b)
  }

  function AfterAll(b: Bucket, capacity: int, rate: real, es: seq<Event>): Bucket
    decreases |es|
  {
    if es == [] then b else AfterAll(After(b, capacity, rate, es[0]), capacity, rate, es[1..])
  }

  lemma AfterTwo(b: Bucket, capacity: int, rate: real, e: Event, f: Event)
    ensures AfterAll(b, capacity, rate, [e]) == After(b, capacity, rate, e)
    ensures AfterAll(b, capacity, rate, [e] + [f]) == After(After(b, capacity, rate, e), capacity, rate, f)
  {
    var b' := After(b, capacity, rate, e);
    assert [e][1..] == [] && ([e] + [f])[1..] == [f] && [f][1..] == [];
    assert AfterAll(b', capacity, rate, []) == b';
    assert AfterAll(b', capacity, rate, [f]) == After(b', capacity, rate, f);
  }

  lemma StepShows(l: Limits, max: int, c: Call, x: Tenant, qps: int, burst: int, b: Bucket)
    requires Shows(l, x, qps, burst, b)
    requires c.request.Check? && c.request.tenant == x ==> c.request.qps == qps && c.request.burst == burst
    ensures Shows(Step(l, max, c), x, qps, burst, AfterAll(b, burst, qps as real, EventsOf(l, max, c, x)))
  {
    var rate, acquire, reset := qps as real, Event(c.time, Acquire(1)), Event(c.time, Reset);
    AfterTwo(b, burst, rate, reset, acquire);
    AfterTwo(b, burst, rate, acquire, acquire);
    AfterTwo(b, burst, rate, Event(c.time, Refill), acquire);
    assert AfterAll(b, burst, rate, []) == b;
    hide AfterAll;
    if c.request.tenant == x && !Raises(l, max, c) && !c.request.Remove? {
      if x in l.entries {
        var es := EventsOf(l, max, c, x);
        assert es == if c.request.Check? then [acquire] else [Event(c.time, Refill)];
      } else if c.request.Check? {
        assert After(b, burst, rate, reset) == Full(burst, c.time);
      }
    }
  }

  lemma GrantedFirst(b: Bucket, capacity: int, rate: real, e: Event, rest: seq<Event>, s: real, t: real)
    ensures
      Granted(b, capacity, rate, [e] + rest, s, t)
      == (if s <= e.time <= t then GrantOf(b, capacity, rate, e) else 0)
         + Granted(After(b, capacity, rate, e), capacity, rate, rest, s, t)
    ensures
      ResetTokens(capacity, [e] + rest, s, t)
      == (if s <= e.time <= t then ResetOf(capacity, e) else 0) + ResetTokens(capacity, rest, s, t)
  {
    assert ([e] + rest)[1..] == rest;
  }

  /** What the events of one call grant, and what they reset, in front of the rest. */
  lemma CallCounts(l: Limits, max: int, c: Call, x: Tenant, qps: int, burst: int, b: Bucket, rest: seq<Event>, s: real, t: real)
    requires Shows(l, x, qps, burst, b)
    requires c.request.Check? && c.request.tenant == x ==> c.request.qps == qps && c.request.burst == burst
    ensures
      var es, rate := EventsOf(l, max, c, x), qps as real;
      && Granted(b, burst, rate, es + rest, s, t)
         == (if c.request.tenant == x && s <= c.time <= t && Passes(l, max, c) then 1 else 0)
            + Granted(AfterAll(b, burst, rate, es), burst, rate, rest, s, t)
      && ResetTokens(burst, es + rest, s, t)
         == (if Makes(l, max, c, x) && s <= c.time <= t then burst else 0)
            + ResetTokens(burst, rest, s, t)
  {
    var es, rate := EventsOf(l, max, c, x), qps as real;
    var acquire, reset, refill := Event(c.time, Acquire(1)), Event(c.time, Reset), Event(c.time, Refill);
    if es == [] {
      assert es + rest == rest;
    } else if x !in l.entries {
      assert es == [reset] + [acquire];
      AfterTwo(b, burst, rate, reset, acquire);
      assert es + rest == [reset] + ([acquire] + rest);
      GrantedFirst(b, burst, rate, reset, [acquire] + rest, s, t);
      GrantedFirst(After(b, burst, rate, reset), burst, rate, acquire, rest, s, t);
    } else {
      var e := if c.request.Check? then acquire else refill;
      assert es == [e];
      AfterTwo(b, burst, rate, e, acquire);
      GrantedFirst(b, burst, rate, e, rest, s, t);
    }
  }

  /** Tenant x's share of the run is a run of one token bucket, in which every bucket made anew is a reset. */
  lemma {:induction false} Simulated(l: Limits, max: int, calls: seq<Call>, x: Tenant, qps: int, burst: int, b: Bucket, s: real, t: real)
    requires Shows(l, x, qps, burst, b) && Steady(calls, x, qps, burst)
    ensures PassedIn(l, max, calls, x, s, t) == Granted(b, burst, qps as real, Project(l, max, calls, x), s, t)
    ensures ResetTokens(burst, Project(l, max, calls, x), s, t) == Bursts(MadeIn(l, max, calls, x, s, t), burst)
    decreases |calls|
  {
    if calls != [] {
      var c := calls[0];
      assert c in calls;
      assert Steady(calls[1..], x, qps, burst);
      var b' := AfterAll(b, burst, qps as real, EventsOf(l, max, c, x));
      hide Shows, EventsOf, Step, Passes, Raises, AfterAll, Granted, ResetTokens, Steady, Makes;
      StepShows(l, max, c, x, qps, burst, b);
      Simulated(Step(l, max, c), max, calls[1..], x, qps, burst, b', s, t);
      CallCounts(l, max, c, x, qps, burst, b, Project(Step(l, max, c), max, calls[1..], x), s, t);
    } else {
      assert Project(l, max, calls, x) == [];
    }
  }

  function Bursts(n: nat, burst: int): int {
    if n == 0 then 0 else burst + Bursts(n - 1, burst)
  }

  lemma {:induction false} ProjectInTime(l: Limits, max: int, calls: seq<Call>, x: Tenant, from: real)
    requires InTime(from, calls)
    ensures Monotone(from, Project(l, max, calls, x)) && NonNegative(Project(l, max, calls, x))
    decreases |calls|
  {
    if calls != [] {
      var c := calls[0];
      var rest := Project(Step(l, max, c), max, calls[1..], x);
      ProjectInTime(Step(l, max, c), max, calls[1..], x, c.time);
      EarlierToo(rest, from, c.time);
      var es := EventsOf(l, max, c, x);
      hide Step, Raises;
      if es == [] {
        assert es + rest == rest;
      } else if |es| == 1 {
        assert (es + rest)[1..] == rest;
      } else {
        assert (es + rest)[1..] == [es[1]] + rest && ([es[1]] + rest)[1..] == rest;
      }
    }
  }

  lemma EarlierToo(es: seq<Event>, from: real, later: real)
    requires from <= later && Monotone(later, es)
    ensures Monotone(from, es)
  {
  }

  // ---------------------------------------------------------------- the limit per tenant

  /** The limiter when the clock reaches s. */
  function At(l: Limits, max: int, calls: seq<Call>, s: real): Limits
    decreases |calls|
  {
    if calls == [] || calls[0].time >= s then l else At(Step(l, max, calls[0]), max, calls[1..], s)
  }

  /** The calls from s on. */
  function Rest(calls: seq<Call>, s: real): seq<Call>
    decreases |calls|
  {
    if calls == [] || calls[0].time >= s then calls else Rest(calls[1..], s)
  }

  /** What flows into the bucket that x has, at the rate that bucket was made with. */
  function Flow(l: Limits, x: Tenant, from: real, to: real): real {
    if x in l.entries then Gain(l.entries[x].rate, from, to) else 0.0
  }

  /** What x may use from one instant to another: the flow into each of its buckets while it has it,
      and the burst that each new one was made with. */
  function Budget(l: Limits, max: int, calls: seq<Call>, x: Tenant, from: real, t: real): real
    decreases |calls|
  {
    if calls == [] || calls[0].time > t then Flow(l, x, from, t)
    else
      var c := calls[0];
      Flow(l, x, from, c.time) + (if Makes(l, max, c, x) then c.request.burst as real else 0.0)
      + Budget(Step(l, max, c), max, calls[1..], x, c.time, t)
  }

  /** Tokens that x has at hand. */
  function Stock(l: Limits, x: Tenant, now: real): real {
    if x in l.entries then
      var e := l.entries[x];
      Refilled(e.bucket, e.capacity, e.rate, now).tokens
    else 0.0
  }

  predicate Sane(l: Limits, x: Tenant, now: real) {
    x in l.entries ==>
      var e := l.entries[x];
      e.capacity >= 0 && e.rate >= 0.0 && InRange(e.bucket, e.capacity, now)
  }

  /** x asks with limits that are not negative, whatever they are from call to call. */
  predicate NotNegative(calls: seq<Call>, x: Tenant) {
    forall c <- calls :: c.request.Check? && c.request.tenant == x ==> c.request.qps >= 0 && c.request.burst >= 0
  }

  lemma OneTry(e: Entry, op: Op, from: real, now: real)
    requires e.capacity >= 0 && e.rate >= 0.0 && InRange(e.bucket, e.capacity, from) && from <= now
    requires op.Refill? || op == Acquire(1)
    ensures
      var e' := Tried(e, op, now);
      && e'.capacity == e.capacity && e'.rate == e.rate && InRange(e'.bucket, e'.capacity, now)
      && Refilled(e'.bucket, e'.capacity, e'.rate, now).tokens + GrantOf(e.bucket, e.capacity, e.rate, Event(now, op)) as real
         <= Refilled(e.bucket, e.capacity, e.rate, from).tokens + Gain(e.rate, from, now)
  {
    GainNonNegative(e.rate, e.bucket.last, now);
    GainNonNegative(e.rate, e.bucket.last, from);
    GainNonNegative(e.rate, from, now);
    GainSplits(e.rate, e.bucket.last, from, now);
    assert Gain(e.rate, now, now) == 0.0;
  }

  lemma OnlyTime(e: Entry, from: real, now: real)
    requires e.capacity >= 0 && e.rate >= 0.0 && InRange(e.bucket, e.capacity, from) && from <= now
    ensures InRange(e.bucket, e.capacity, now)
    ensures 0.0 <= Refilled(e.bucket, e.capacity, e.rate, from).tokens <= e.capacity as real
    ensures Refilled(e.bucket, e.capacity, e.rate, now).tokens
            <= Refilled(e.bucket, e.capacity, e.rate, from).tokens + Gain(e.rate, from, now)
    ensures Gain(e.rate, from, now) >= 0.0
  {
    GainNonNegative(e.rate, e.bucket.last, from);
    GainNonNegative(e.rate, from, now);
    GainSplits(e.rate, e.bucket.last, from, now);
  }

  /** What a call does to the stock of x is paid from the flow and from the bucket it makes. */
  lemma CallPaid(l: Limits, max: int, c: Call, x: Tenant, from: real)
    requires Sane(l, x, from) && from <= c.time && NotNegative([c], x)
    ensures Sane(Step(l, max, c), x, c.time)
    ensures
      (if c.request.tenant == x && Passes(l, max, c) then 1.0 else 0.0) + Stock(Step(l, max, c), x, c.time)
      <= Stock(l, x, from) + Flow(l, x, from, c.time) + (if Makes(l, max, c, x) then c.request.burst as real else 0.0)
  {
    assert c in [c];
    if x in l.entries {
      OnlyTime(l.entries[x], from, c.time);
      OneTry(l.entries[x], Acquire(1), from, c.time);
      OneTry(l.entries[x], Refill, from, c.time);
    } else if Makes(l, max, c, x) {
      var e := Entry(c.request.burst, c.request.qps as real, Full(c.request.burst, c.time));
      OneTry(e, Acquire(1), c.time, c.time);
      assert Gain(e.rate, c.time, c.time) == 0.0;
    }
    hide After, Refilled, Gain;
  }

  lemma {:induction false} PassesNoneLater(l: Limits, max: int, calls: seq<Call>, x: Tenant, from: real, s: real, t: real)
    requires InTime(from, calls) && from > t
    ensures PassedIn(l, max, calls, x, s, t) == 0
    decreases |calls|
  {
    if calls != [] {
      hide Step, Passes;
      PassesNoneLater(Step(l, max, calls[0]), max, calls[1..], x, calls[0].time, s, t);
    }
  }

  lemma {:induction false} PaidByBudget(l: Limits, max: int, calls: seq<Call>, x: Tenant, from: real, s: real, t: real)
    requires InTime(from, calls) && NotNegative(calls, x) && Sane(l, x, from) && s <= from <= t
    ensures PassedIn(l, max, calls, x, s, t) as real <= Stock(l, x, from) + Budget(l, max, calls, x, from, t)
    decreases |calls|
  {
    if x in l.entries {
      OnlyTime(l.entries[x], from, t);
    }
    if calls != [] {
      var c, rest := calls[0], calls[1..];
      if c.time > t {
        PassesNoneLater(Step(l, max, c), max, rest, x, c.time, s, t);
      } else {
        RestNotNegative(calls, x);
        CallPaid(l, max, c, x, from);
        hide Step, Passes, Makes, Sane, Stock, Flow, NotNegative;
        PaidByBudget(Step(l, max, c), max, rest, x, c.time, s, t);
      }
    }
  }

  lemma RestNotNegative(calls: seq<Call>, x: Tenant)
    requires calls != [] && NotNegative(calls, x)
    ensures NotNegative(calls[1..], x) && NotNegative([calls[0]], x)
  {
    assert calls[0] in calls && forall d <- calls[1..] :: d in calls;
  }

  lemma {:induction false} BudgetFrom(l: Limits, max: int, calls: seq<Call>, x: Tenant, now: real, s: real, t: real)
    requires InTime(now, calls) && NotNegative(calls, x) && Sane(l, x, now) && now <= s <= t
    ensures
      var open := At(l, max, calls, s);
      PassedIn(l, max, calls, x, s, t) as real
      <= (if x in open.entries then open.entries[x].capacity as real else 0.0) + Budget(open, max, Rest(calls, s), x, s, t)
    decreases |calls|
  {
    if calls == [] || calls[0].time >= s {
      assert InTime(s, calls);
      if x in l.entries {
        OnlyTime(l.entries[x], now, s);
        OnlyTime(l.entries[x], s, s);
      }
      PaidByBudget(l, max, calls, x, s, s, t);
    } else {
      var c := calls[0];
      RestNotNegative(calls, x);
      CallPaid(l, max, c, x, now);
      hide Step, Passes, Makes, Sane, NotNegative, Budget;
      BudgetFrom(Step(l, max, c), max, calls[1..], x, c.time, s, t);
    }
  }

  /** The bound for a tenant whose limits may change from call to call. A bucket keeps the limits it was
      made with: in any run from the empty limiter the tenant gets through between two instants at
      most the capacity of the bucket it has at the first of them, if any, what flows into its buckets
      at their own rates while it has them, and the burst of each bucket made in between. */
  lemma TenantBudget(max: int, calls: seq<Call>, x: Tenant, start: real, s: real, t: real)
    requires InTime(start, calls) && NotNegative(calls, x) && s <= t
    ensures
      var open := At(NO_LIMITS, max, calls, s);
      PassedIn(NO_LIMITS, max, calls, x, s, t) as real
      <= (if x in open.entries then open.entries[x].capacity as real else 0.0) + Budget(open, max, Rest(calls, s), x, s, t)
  {
    var from := Least(start, s);
    InTimeEarlier(from, start, calls);
    BudgetFrom(NO_LIMITS, max, calls, x, from, s, t);
  }

  /** A changed quota has no effect while the tenant keeps its bucket. */
  lemma QuotaWaits(l: Limits, max: int, x: Tenant, now: real, qps: int, burst: int, qps': int, burst': int)
    requires x in l.entries
    ensures Step(l, max, Call(now, Check(x, qps, burst))) == Step(l, max, Call(now, Check(x, qps', burst')))
    ensures Passes(l, max, Call(now, Check(x, qps, burst))) <==> Passes(l, max, Call(now, Check(x, qps', burst')))
  {
  }

  /** Buckets made for x over the whole run. */
  function Made(l: Limits, max: int, calls: seq<Call>, x: Tenant): nat
    decreases |calls|
  {
    if calls == [] then 0
    else (if Makes(l, max, calls[0], x) then 1 else 0) + Made(Step(l, max, calls[0]), max, calls[1..], x)
  }

  predicate InRange(b: Bucket, burst: int, now: real) {
    0.0 <= b.tokens <= burst as real && b.last <= now
  }

  lemma StepInRange(l: Limits, max: int, c: Call, x: Tenant, qps: int, burst: int, b: Bucket)
    requires qps >= 0 && burst >= 0 && InRange(b, burst, c.time)
    ensures InRange(AfterAll(b, burst, qps as real, EventsOf(l, max, c, x)), burst, c.time)
  {
    var rate, acquire, reset, refill := qps as real, Event(c.time, Acquire(1)), Event(c.time, Reset), Event(c.time, Refill);
    AfterTwo(b, burst, rate, reset, acquire);
    AfterTwo(b, burst, rate, acquire, acquire);
    AfterTwo(b, burst, rate, refill, acquire);
    assert AfterAll(b, burst, rate, []) == b;
    AfterInRange(b, burst, rate, acquire);
    AfterInRange(b, burst, rate, reset);
    AfterInRange(b, burst, rate, refill);
    AfterInRange(After(b, burst, rate, reset), burst, rate, acquire);
    hide AfterAll, After;
    var es := EventsOf(l, max, c, x);
    assert es == [] || es == [acquire] || es == [refill] || es == [reset] + [acquire];
  }

  /** The window opens with the bucket it finds, or with none. */
  lemma BoundFromOpening(l: Limits, max: int, calls: seq<Call>, x: Tenant, qps: int, burst: int, b: Bucket, s: real, t: real)
    requires qps >= 0 && burst >= 0 && s <= t && Steady(calls, x, qps, burst) && InTime(s, calls)
    requires Shows(l, x, qps, burst, b) && InRange(b, burst, s)
    ensures PassedIn(l, max, calls, x, s, t) as real
            <= (if x in l.entries then burst as real else 0.0) + Gain(qps as real, s, t)
               + Bursts(MadeIn(l, max, calls, x, s, t), burst) as real
  {
    var events := Project(l, max, calls, x);
    ProjectInTime(l, max, calls, x, s);
    if x in l.entries {
      EarlierToo(events, b.last, s);
      Simulated(l, max, calls, x, qps, burst, b, s, t);
      WindowBound(b, burst, qps as real, events, s, t);
    } else {
      Simulated(l, max, calls, x, qps, burst, Bucket(0.0, s), s, t);
      PaidFor(Bucket(0.0, s), burst, qps as real, events, s, t);
    }
  }

  lemma {:induction false} BoundFrom(l: Limits, max: int, calls: seq<Call>, x: Tenant, qps: int, burst: int, b: Bucket,
                                     now: real, s: real, t: real)
    requires qps >= 0 && burst >= 0 && s <= t && Steady(calls, x, qps, burst) && InTime(now, calls)
    requires Shows(l, x, qps, burst, b) && InRange(b, burst, now) && now <= s
    ensures PassedIn(l, max, calls, x, s, t) as real
            <= (if x in At(l, max, calls, s).entries then burst as real else 0.0) + Gain(qps as real, s, t)
               + Bursts(MadeIn(l, max, calls, x, s, t), burst) as real
    decreases |calls|
  {
    if calls == [] || calls[0].time >= s {
      assert InTime(s, calls);
      BoundFromOpening(l, max, calls, x, qps, burst, b, s, t);
    } else {
      var c := calls[0];
      assert c in calls && Steady(calls[1..], x, qps, burst);
      var b' := AfterAll(b, burst, qps as real, EventsOf(l, max, c, x));
      hide Shows, EventsOf, Step, AfterAll, Passes, Raises, Steady, Gain;
      StepShows(l, max, c, x, qps, burst, b);
      StepInRange(l, max, c, x, qps, burst, b);
      BoundFrom(Step(l, max, c), max, calls[1..], x, qps, burst, b', c.time, s, t);
    }
  }

  /** In any run of the limiter that starts empty, a tenant with steady limits gets through between
      two instants at most a burst if it has a bucket at the first of them, the refill of that time,
      and a burst for every bucket that is made for it in between. */
  lemma TenantBound(max: int, calls: seq<Call>, x: Tenant, qps: int, burst: int, start: real, s: real, t: real)
    requires InTime(start, calls) && Steady(calls, x, qps, burst) && qps >= 0 && burst >= 0 && s <= t
    ensures PassedIn(NO_LIMITS, max, calls, x, s, t) as real
            <= (if x in At(NO_LIMITS, max, calls, s).entries then burst as real else 0.0) + Gain(qps as real, s, t)
               + Bursts(MadeIn(NO_LIMITS, max, calls, x, s, t), burst) as real
  {
    var from := Least(start, s);
    InTimeEarlier(from, start, calls);
    BoundFrom(NO_LIMITS, max, calls, x, qps, burst, Bucket(0.0, from), from, s, t);
  }

  lemma InTimeEarlier(from: real, later: real, calls: seq<Call>)
    requires from <= later && InTime(later, calls)
    ensures InTime(from, calls)
  {
  }

  /** A bucket that is there at s was there at the start or has been made since. */
  lemma {:induction false} MadeBefore(l: Limits, max: int, calls: seq<Call>, x: Tenant, s: real, t: real)
    ensures (if x in At(l, max, calls, s).entries then 1 else 0) + MadeIn(l, max, calls, x, s, t)
            <= (if x in l.entries then 1 else 0) + Made(l, max, calls, x)
    decreases |calls|
  {
    if calls != [] {
      var c := calls[0];
      if c.time >= s {
        MadeInAtMost(Step(l, max, c), max, calls[1..], x, s, t);
      } else {
        MadeBefore(Step(l, max, c), max, calls[1..], x, s, t);
        StillThere(l, max, c, x);
      }
    }
  }

  lemma {:induction false} MadeInAtMost(l: Limits, max: int, calls: seq<Call>, x: Tenant, s: real, t: real)
    ensures MadeIn(l, max, calls, x, s, t) <= Made(l, max, calls, x)
    decreases |calls|
  {
    if calls != [] {
      MadeInAtMost(Step(l, max, calls[0]), max, calls[1..], x, s, t);
    }
  }

  lemma StillThere(l: Limits, max: int, c: Call, x: Tenant)
    ensures x in Step(l, max, c).entries ==> x in l.entries || Makes(l, max, c, x)
  {
  }

  /** What a tenant is told: a burst, and the refill. */
  predicate PlainLimit(max: int, calls: seq<Call>, x: Tenant, qps: int, burst: int, s: real, t: real) {
    PassedIn(NO_LIMITS, max, calls, x, s, t) as real <= burst as real + Gain(qps as real, s, t)
  }

  /** With at most one bucket ever made for it, a tenant keeps the plain limit in every window. */
  lemma OneBucketIsPlain(max: int, calls: seq<Call>, x: Tenant, qps: int, burst: int, start: real, s: real, t: real)
    requires InTime(start, calls) && Steady(calls, x, qps, burst) && qps >= 0 && burst >= 0 && s <= t
    requires Made(NO_LIMITS, max, calls, x) <= 1
    ensures PlainLimit(max, calls, x, qps, burst, s, t)
  {
    TenantBound(max, calls, x, qps, burst, start, s, t);
    MadeBefore(NO_LIMITS, max, calls, x, s, t);
    assert Bursts(0, burst) == 0 && Bursts(1, burst) == burst + Bursts(0, burst);
  }

  /** One more bucket is one too many: x asks, y takes its place, and x gets a full bucket again. */
  lemma TwoBucketsAreNot(x: Tenant, y: Tenant, qps: int) returns (calls: seq<Call>)
    requires x != y && qps >= 0
    ensures InTime(0.0, calls) && Steady(calls, x, qps, 1) && Made(NO_LIMITS, 1, calls, x) == 2
    ensures PassedIn(NO_LIMITS, 1, calls, x, 0.0, 0.0) == 2 && !PlainLimit(1, calls, x, qps, 1, 0.0, 0.0)
  {
    var cx, cy := Call(0.0, Check(x, qps, 1)), Call(0.0, Check(y, qps, 1));
    calls := [cx] + ([cy] + ([cx] + []));
    assert Steady(calls, x, qps, 1);
    assert Gain(qps as real, 0.0, 0.0) == 0.0;
    hide Step, Passes, Makes, PassedIn, Made, InTime, Steady, Valid, Gain;
    var l1, l2 := InAndOut(x, y, qps);
    Counts(cx, cy, l1, l2, x);
  }

  /** x gets the only bucket, and y takes it away. */
  lemma InAndOut(x: Tenant, y: Tenant, qps: int) returns (l1: Limits, l2: Limits)
    requires x != y
    ensures
      var cx, cy := Call(0.0, Check(x, qps, 1)), Call(0.0, Check(y, qps, 1));
      && l1 == Step(NO_LIMITS, 1, cx) && Passes(NO_LIMITS, 1, cx) && Makes(NO_LIMITS, 1, cx, x)
      && l2 == Step(l1, 1, cy) && !Makes(l1, 1, cy, x)
      && Passes(l2, 1, cx) && Makes(l2, 1, cx, x)
  {
    hide Step, Passes, Makes, Valid;
    Empty();
    l1 := OneBucket(NO_LIMITS, x, qps);
    NotThere(l1, x, y);
    l2 := OneBucket(l1, y, qps);
    NotThere(l2, y, x);
    var l3 := OneBucket(l2, x, qps);
  }

  lemma Counts(cx: Call, cy: Call, l1: Limits, l2: Limits, x: Tenant)
    requires cx.time == cy.time == 0.0 && cx.request.tenant == x != cy.request.tenant
    requires l1 == Step(NO_LIMITS, 1, cx) && Passes(NO_LIMITS, 1, cx) && Makes(NO_LIMITS, 1, cx, x)
    requires l2 == Step(l1, 1, cy) && !Makes(l1, 1, cy, x)
    requires Passes(l2, 1, cx) && Makes(l2, 1, cx, x)
    ensures
      var calls := [cx] + ([cy] + ([cx] + []));
      && InTime(0.0, calls) && Made(NO_LIMITS, 1, calls, x) == 2 && PassedIn(NO_LIMITS, 1, calls, x, 0.0, 0.0) == 2
  {
    hide Step, Passes, Makes, PassedIn, Made, InTime;
    NoCalls(Step(l2, 1, cx), 1, x);
    FirstCall(l2, 1, cx, [], x);
    FirstCall(l1, 1, cy, [cx] + [], x);
    FirstCall(NO_LIMITS, 1, cx, [cy] + ([cx] + []), x);
  }

  lemma Empty()
    ensures Valid(NO_LIMITS)
  {
  }

  lemma NotThere(l: Limits, x: Tenant, y: Tenant)
    requires x != y && Valid(l) && l.order == [x]
    ensures y !in l.entries
  {
  }

  lemma NoCalls(l: Limits, max: int, x: Tenant)
    ensures InTime(0.0, []) && PassedIn(l, max, [], x, 0.0, 0.0) == Made(l, max, [], x) == 0
  {
  }

  lemma FirstCall(l: Limits, max: int, c: Call, rest: seq<Call>, x: Tenant)
    requires c.time == 0.0
    ensures InTime(0.0, [c] + rest) <==> InTime(0.0, rest)
    ensures
      PassedIn(l, max, [c] + rest, x, 0.0, 0.0)
      == (if c.request.tenant == x && Passes(l, max, c) then 1 else 0) + PassedIn(Step(l, max, c), max, rest, x, 0.0, 0.0)
    ensures
      Made(l, max, [c] + rest, x) == (if Makes(l, max, c, x) then 1 else 0) + Made(Step(l, max, c), max, rest, x)
  {
    assert ([c] + rest)[1..] == rest;
  }

  /** A limiter for one bucket: who is not there and asks for one token of one gets it, and is alone. */
  lemma OneBucket(l: Limits, x: Tenant, qps: int) returns (l': Limits)
    requires Valid(l) && |l.order| <= 1 && x !in l.entries
    ensures
      var c := Call(0.0, Check(x, qps, 1));
      l' == Step(l, 1, c) && Passes(l, 1, c) && forall t :: Makes(l, 1, c, t) <==> t == x
    ensures Valid(l') && l'.order == [x]
  {
    var c := Call(0.0, Check(x, qps, 1));
    StepKeepsBound(l, 1, c);
    l' := Step(l, 1, c);
    assert l.order != [] ==> l.order[1..] == [];
  }

  /** If this run is in time order and steady and makes at most m buckets for x, x keeps its plain limit. */
  predicate PlainUpTo(m: nat, max: int, calls: seq<Call>, x: Tenant, qps: nat, burst: nat, s: real, t: real) {
    InTime(0.0, calls) && Steady(calls, x, qps, burst) && s <= t && Made(NO_LIMITS, max, calls, x) <= m
    ==> PlainLimit(max, calls, x, qps, burst, s, t)
  }

  /** The exact threshold: the runs that make at most m buckets for a tenant all keep its plain limit
      if and only if m is at most one. */
  lemma PlainLimitHoldsWhen(m: nat, x: Tenant, y: Tenant)
    requires x != y
    ensures m <= 1 <==> forall max, calls, qps: nat, burst: nat, s, t :: PlainUpTo(m, max, calls, x, qps, burst, s, t)
  {
    hide InTime, Steady, Made, PlainLimit;
    if m <= 1 {
      forall max, calls, qps: nat, burst: nat, s, t ensures PlainUpTo(m, max, calls, x, qps, burst, s, t) {
        if InTime(0.0, calls) && Steady(calls, x, qps, burst) && s <= t && Made(NO_LIMITS, max, calls, x) <= m {
          OneBucketIsPlain(max, calls, x, qps, burst, 0.0, s, t);
        }
      }
    } else {
      var calls := TwoBucketsAreNot(x, y, 1);
      assert !PlainUpTo(m, 1, calls, x, 1, 1, 0.0, 0.0);
    }
  }

  // ---------------------------------------------------------------- the object

  const DEFAULT_QPS := 60
  const DEFAULT_BURST := 120

  class TenantLimiter {
    const max: int
    var order: seq<Tenant>
    var entries: map<Tenant, Entry>

    constructor (max: int)
      ensures View() == NO_LIMITS && this.max == max
    {
      this.max := max;
      order, entries := [], map[];
    }

    function View(): Limits
      reads this
    {
      Limits(order, entries)
    }

    /** False when there was no bucket to evict, and next() raised. */
    method GetBucket(t: Tenant, qps: int, burst: int, now: real) returns (ok: bool)
      requires Valid(View())
      modifies this
      ensures ok == !Raises(old(View()), max, Call(now, Check(t, qps, burst)))
      ensures View() == if ok then WithBucket(old(View()), max, t, qps, burst, now) else old(View())
      ensures ok ==> t in entries
      ensures ok <==> t in old(entries) || |old(order)| < max || old(order) != []
      ensures t in old(entries) ==> order == old(order) && entries == old(entries)
      ensures t !in old(entries) && |old(order)| < max ==>
        order == old(order) + [t] && entries == old(entries)[t := Entry(burst, qps as real, Bucket(burst as real, now))]
      ensures t !in old(entries) && |old(order)| >= max && old(order) != [] ==>
        && order == old(order)[1..] + [t]
        && entries == (old(entries) - {old(order)[0]})[t := Entry(burst, qps as real, Bucket(burst as real, now))]
    {
      if t !in entries {
        if |order| >= max {
          if order == [] {
            return false;
          }
          var oldest := order[0];
          assert oldest in order;
          order := order[1..];
          entries := entries - {oldest};
        }
        order := order + [t];
        entries := entries[t := Entry(burst, qps as real, Full(burst, now))];
      }
      return true;
    }

    /** The answer, or None when the call raised. */
    method CheckLimit(t: Tenant, qps: Option<int>, burst: Option<int>, now: real) returns (passed: Option<bool>)
      requires Valid(View())
      modifies this
      ensures
        var c := Call(now, Check(t, if qps.Some? then qps.value else 60, if burst.Some? then burst.value else 120));
        && View() == Step(old(View()), max, c)
        && passed == if Raises(old(View()), max, c) then None else Some(Passes(old(View()), max, c))
      ensures t in old(entries) ==>
        var e := old(entries)[t];
        passed == Some(e.capacity >= 1 && e.bucket.tokens + (now - e.bucket.last) * e.rate >= 1.0)
      ensures t !in old(entries) ==>
        if old(order) == [] && max <= 0 then passed == None
        else passed == Some((if burst.Some? then burst.value else 120) >= 1)
    {
      var q := if qps.Some? then qps.value else DEFAULT_QPS;
      var u := if burst.Some? then burst.value else DEFAULT_BURST;
      var ok := GetBucket(t, q, u, now);
      if !ok {
        return None;
      }
      var e := entries[t];
      var r := Refilled(e.bucket, e.capacity, e.rate, now);
      HasOne(e, now);
      NewHasOne(u, q as real, now);
      hide Refilled, Gain, Full;
      if r.tokens >= 1.0 {
        entries := entries[t := e.(bucket := r.(tokens := r.tokens - 1.0))];
        return Some(true);
      }
      entries := entries[t := e.(bucket := r)];
      return Some(false);
    }

    method GetRemaining(t: Tenant, now: real) returns (tokens: real)
      modifies this
      ensures View() == Step(old(View()), max, Call(now, Remaining(t)))
      ensures tokens == if t in entries then entries[t].bucket.tokens else 120.0
      ensures t in old(entries) ==>
        var e := old(entries)[t];
        tokens == Least(e.capacity as real, e.bucket.tokens + (now - e.bucket.last) * e.rate)
    {
      if t !in entries {
        return DEFAULT_BURST as real;
      }
      var e := entries[t];
      entries := entries[t := e.(bucket := Refilled(e.bucket, e.capacity, e.rate, now))];
      return entries[t].bucket.tokens;
    }

    method RemoveBucket(t: Tenant, now: real) returns (removed: bool)
      requires Valid(View())
      modifies this
      ensures View() == Step(old(View()), max, Call(now, Remove(t))) && removed == (t in old(entries))
      ensures entries == old(entries) - {t} && t !in order
      ensures !removed ==> order == old(order)
      ensures removed ==> exists k :: 0 <= k < |old(order)| && old(order)[k] == t
                                      && order == old(order)[..k] + old(order)[k + 1..]
    {
      DropNothing(order, t);
      DropIs(order, t);
      removed := t in entries;
      if removed {
        ghost var k := DropAt(order, t);
        entries := entries - {t};
        order := Drop(order, t);
      } else {
        assert entries - {t} == entries;
      }
    }
  }

  lemma {:induction false} DropNothing(order: seq<Tenant>, t: Tenant)
    ensures t !in order ==> Drop(order, t) == order
  {
    if order != [] && t !in order {
      assert order[0] in order && forall x <- order[1..] :: x in order;
      DropNothing(order[1..], t);
    }
  }

  /** The key leaves its place, and the others keep their order. */
  lemma {:induction false} DropAt(order: seq<Tenant>, t: Tenant) returns (k: nat)
    requires t in order
    ensures k < |order| && order[k] == t && Drop(order, t) == order[..k] + order[k + 1..]
  {
    k := 0;
    if order[0] == t {
      assert order[..0] + order[0 + 1..] == order[1..];
    } else {
      var rest := order[1..];
      assert order == [order[0]] + rest;
      var j := DropAt(rest, t);
      k := j + 1;
      assert order[..k] == [order[0]] + rest[..j] && order[k + 1..] == rest[j + 1..];
    }
  }

  /** One token is there. */
  lemma HasOne(e: Entry, now: real)
    ensures Refilled(e.bucket, e.capacity, e.rate, now).tokens >= 1.0 <==>
      e.capacity >= 1 && e.bucket.tokens + (now - e.bucket.last) * e.rate >= 1.0
  {
    var inflow := (now - e.bucket.last) * e.rate;
    assert Gain(e.rate, e.bucket.last, now) == inflow;
    hide Gain;
    assert Refilled(e.bucket, e.capacity, e.rate, now).tokens == Least(e.capacity as real, e.bucket.tokens + inflow);
  }

  lemma NewHasOne(burst: int, rate: real, now: real)
    ensures Refilled(Full(burst, now), burst, rate, now).tokens >= 1.0 <==> burst >= 1
  {
    assert Gain(rate, now, now) == 0.0;
  }
}
