/** The token bucket of the gRPC interceptor and of the REST middleware (the same algorithm).

    Floats are reals and the clock is monotone. */
module TokenBucket {
  datatype Bucket = Bucket(tokens: real, last: real)

  datatype Op =
    | Acquire(n: int)
    | Refill            // refill(), or a read of available_tokens
    | Reset

  datatype Event = Event(time: real, op: Op)

  function Full(capacity: int, now: real): Bucket {
    Bucket(capacity as real, now)
  }

  function Least(a: real, b: real): real {
    if b < a then b else a
  }

  /** Tokens that flow in between two instants. */
  function Gain(rate: real, from: real, to: real): real {
    (to - from) * rate
  }

  function Refilled(b: Bucket, capacity: int, rate: real, now: real): Bucket {
    Bucket(Least(capacity as real, b.tokens + Gain(rate, b.last, now)), now)
  }

  predicate Grants(b: Bucket, capacity: int, rate: real, e: Event) {
    e.op.Acquire? && Refilled(b, capacity, rate, e.time).tokens >= e.op.n as real
  }

  function After(b: Bucket, capacity: int, rate: real, e: Event): Bucket {
    var r := Refilled(b, capacity, rate, e.time);
    match e.op
    case Refill => r
    case Reset => Full(capacity, e.time)
    case Acquire(n) => if r.tokens >= n as real then r.(tokens := r.tokens - n as real) else r
  }

  class Limiter {
    const capacity: int
    const rate: real
    var tokens: real
    var last: real

    constructor (capacity: int, rate: real, now: real)
      ensures View() == Full(capacity, now) && this.capacity == capacity && this.rate == rate
    {
      this.capacity, this.rate := capacity, rate;
      tokens, last := capacity as real, now;
    }

    function View(): Bucket
      reads this
    {
      Bucket(tokens, last)
    }

    method RefillUnlocked(now: real)
      modifies this
      ensures View() == Refilled(old(View()), capacity, rate, now)
      ensures last == now && tokens <= capacity as real && tokens <= old(tokens) + (now - old(last)) * rate
      ensures tokens == capacity as real || tokens == old(tokens) + (now - old(last)) * rate
    {
      var elapsed := now - last;
      var added := elapsed * rate;
      tokens := Least(capacity as real, tokens + added);
      last := now;
    }

    method TryAcquire(n: int, now: real) returns (ok: bool)
      modifies this
      ensures ok == Grants(old(View()), capacity, rate, Event(now, Acquire(n)))
      ensures View() == After(old(View()), capacity, rate, Event(now, Acquire(n)))
      ensures ok <==> n <= capacity && n as real <= old(tokens) + (now - old(last)) * rate
      ensures
        var taken := if ok then n as real else 0.0;
        && last == now && tokens + taken <= capacity as real && tokens + taken <= old(tokens) + (now - old(last)) * rate
        && (tokens + taken == capacity as real || tokens + taken == old(tokens) + (now - old(last)) * rate)
    {
      RefillUnlocked(now);
      if tokens >= n as real {
        tokens := tokens - n as real;
        return true;
      }
      return false;
    }

    method AvailableTokens(now: real) returns (available: real)
      modifies this
      ensures View() == After(old(View()), capacity, rate, Event(now, Refill)) && available == tokens
      ensures last == now && available <= capacity as real && available <= old(tokens) + (now - old(last)) * rate
      ensures available == capacity as real || available == old(tokens) + (now - old(last)) * rate
    {
      RefillUnlocked(now);
      available := tokens;
    }

    method ResetBucket(now: real)
      modifies this
      ensures View() == After(old(View()), capacity, rate, Event(now, Reset))
      ensures tokens == capacity as real && last == now
    {
      tokens, last := capacity as real, now;
    }
  }

  // ---------------------------------------------------------------- runs

  predicate Monotone(last: real, events: seq<Event>)
    decreases |events|
  {
    events == [] || (last <= events[0].time && Monotone(events[0].time, events[1..]))
  }

  function GrantOf(b: Bucket, capacity: int, rate: real, e: Event): int {
    if Grants(b, capacity, rate, e) then e.op.n else 0
  }

  function ResetOf(capacity: int, e: Event): int {
    if e.op.Reset? then capacity else 0
  }

  /** Tokens granted at times in [s, t]. */
  function Granted(b: Bucket, capacity: int, rate: real, events: seq<Event>, s: real, t: real): int
    decreases |events|
  {
    if events == [] then 0
    else
      var e := events[0];
      (if s <= e.time <= t then GrantOf(b, capacity, rate, e) else 0)
      + Granted(After(b, capacity, rate, e), capacity, rate, events[1..], s, t)
  }

  /** One capacity for every reset at a time in [s, t]. */
  function ResetTokens(capacity: int, events: seq<Event>, s: real, t: real): int {
    if events == [] then 0
    else
      (if s <= events[0].time <= t then ResetOf(capacity, events[0]) else 0)
      + ResetTokens(capacity, events[1..], s, t)
  }

  predicate NonNegative(events: seq<Event>) {
    events == [] || ((events[0].op.Acquire? ==> events[0].op.n >= 0) && NonNegative(events[1..]))
  }

  lemma GainNonNegative(rate: real, from: real, to: real)
    requires rate >= 0.0 && from <= to
    ensures Gain(rate, from, to) >= 0.0
  {
  }

  lemma GainSplits(rate: real, a: real, b: real, c: real)
    ensures Gain(rate, a, c) == Gain(rate, a, b) + Gain(rate, b, c)
  {
  }

  lemma {:induction false} NothingAfterWindow(b: Bucket, capacity: int, rate: real, events: seq<Event>, s: real, t: real)
    requires Monotone(b.last, events) && t < b.last
    ensures Granted(b, capacity, rate, events, s, t) == 0
    decreases |events|
  {
    if events != [] {
      NothingAfterWindow(After(b, capacity, rate, events[0]), capacity, rate, events[1..], s, t);
    }
  }

  lemma AfterInRange(b: Bucket, capacity: int, rate: real, e: Event)
    requires rate >= 0.0 && capacity >= 0 && 0.0 <= b.tokens <= capacity as real && b.last <= e.time
    requires e.op.Acquire? ==> e.op.n >= 0
    ensures var r := Refilled(b, capacity, rate, e.time); b.tokens <= r.tokens <= capacity as real
    ensures var b' := After(b, capacity, rate, e); 0.0 <= b'.tokens <= capacity as real && b'.last == e.time
  {
    GainNonNegative(rate, b.last, e.time);
  }

  /** What one event adds to the tokens at hand and to what has been granted. */
  lemma EventPaidFor(b: Bucket, capacity: int, rate: real, e: Event)
    requires rate >= 0.0 && capacity >= 0 && 0.0 <= b.tokens <= capacity as real && b.last <= e.time
    requires e.op.Acquire? ==> e.op.n >= 0
    ensures After(b, capacity, rate, e).tokens + GrantOf(b, capacity, rate, e) as real
            <= b.tokens + Gain(rate, b.last, e.time) + ResetOf(capacity, e) as real
  {
    GainNonNegative(rate, b.last, e.time);
  }

  /** What an event of the window adds to the sums. */
  lemma SumsStep(b: Bucket, capacity: int, rate: real, events: seq<Event>, s: real, t: real)
    requires events != [] && s <= events[0].time <= t
    ensures
      var e := events[0];
      var b' := After(b, capacity, rate, e);
      && Granted(b, capacity, rate, events, s, t)
         == GrantOf(b, capacity, rate, e) + Granted(b', capacity, rate, events[1..], s, t)
      && ResetTokens(capacity, events, s, t)
         == ResetOf(capacity, e) + ResetTokens(capacity, events[1..], s, t)
  {
  }

  /** Inside the window grants are paid for by the tokens at hand, the refill and the resets. */
  lemma {:induction false} PaidFor(b: Bucket, capacity: int, rate: real, events: seq<Event>, s: real, t: real)
    requires rate >= 0.0 && capacity >= 0 && NonNegative(events) && Monotone(b.last, events)
    requires s <= b.last <= t && 0.0 <= b.tokens <= capacity as real
    ensures Granted(b, capacity, rate, events, s, t) as real
            <= b.tokens + Gain(rate, b.last, t) + ResetTokens(capacity, events, s, t) as real
    decreases |events|
  {
    GainNonNegative(rate, b.last, t);
    if events == [] {
      assert Granted(b, capacity, rate, events, s, t) == 0 == ResetTokens(capacity, events, s, t);
    } else if events[0].time > t {
      NothingAfterWindow(After(b, capacity, rate, events[0]), capacity, rate, events[1..], s, t);
      ResetTokensNonNegative(capacity, events[1..], s, t);
    } else {
      var e := events[0];
      AfterInRange(b, capacity, rate, e);
      PaidFor(After(b, capacity, rate, e), capacity, rate, events[1..], s, t);
      PaidForStep(b, capacity, rate, events, s, t);
    }
  }

  lemma PaidForStep(b: Bucket, capacity: int, rate: real, events: seq<Event>, s: real, t: real)
    requires rate >= 0.0 && capacity >= 0 && 0.0 <= b.tokens <= capacity as real
    requires events != [] && s <= events[0].time <= t && b.last <= events[0].time
    requires events[0].op.Acquire? ==> events[0].op.n >= 0
    requires
      var b' := After(b, capacity, rate, events[0]);
      Granted(b', capacity, rate, events[1..], s, t) as real
      <= b'.tokens + Gain(rate, b'.last, t) + ResetTokens(capacity, events[1..], s, t) as real
    ensures Granted(b, capacity, rate, events, s, t) as real
            <= b.tokens + Gain(rate, b.last, t) + ResetTokens(capacity, events, s, t) as real
  {
    var e, rest := events[0], events[1..];
    var b' := After(b, capacity, rate, e);
    EventPaidFor(b, capacity, rate, e);
    AddUp(b, b', rate, t, GrantOf(b, capacity, rate, e) as real,
          Granted(b', capacity, rate, rest, s, t) as real,
          ResetOf(capacity, e) as real, ResetTokens(capacity, rest, s, t) as real);
    SumsStep(b, capacity, rate, events, s, t);
  }

  lemma AddUp(b: Bucket, b': Bucket, rate: real, t: real, g: real, g': real, r: real, r': real)
    requires b'.tokens + g <= b.tokens + Gain(rate, b.last, b'.last) + r
    requires g' <= b'.tokens + Gain(rate, b'.last, t) + r'
    ensures g + g' <= b.tokens + Gain(rate, b.last, t) + r + r'
  {
    GainSplits(rate, b.last, b'.last, t);
  }

  lemma {:induction false} ResetTokensNonNegative(capacity: int, events: seq<Event>, s: real, t: real)
    requires capacity >= 0
    ensures ResetTokens(capacity, events, s, t) >= 0
  {
    if events != [] {
      ResetTokensNonNegative(capacity, events[1..], s, t);
    }
  }

  /** In any run, the tokens granted between two instants are at most one bucketful, the refill of
      that time, and one more bucketful for every reset in it. */
  lemma {:induction false} WindowBound(b: Bucket, capacity: int, rate: real, events: seq<Event>, s: real, t: real)
    requires rate >= 0.0 && capacity >= 0 && NonNegative(events) && Monotone(b.last, events)
    requires s <= t && 0.0 <= b.tokens <= capacity as real
    ensures Granted(b, capacity, rate, events, s, t) as real
            <= capacity as real + Gain(rate, s, t) + ResetTokens(capacity, events, s, t) as real
    decreases |events|
  {
    GainNonNegative(rate, s, t);
    if events == [] {
      assert Granted(b, capacity, rate, events, s, t) == 0 == ResetTokens(capacity, events, s, t);
    } else {
      var e, rest := events[0], events[1..];
      var b' := After(b, capacity, rate, e);
      AfterInRange(b, capacity, rate, e);
      if e.time < s {
        WindowBound(b', capacity, rate, rest, s, t);
      } else if e.time > t {
        NothingAfterWindow(b', capacity, rate, rest, s, t);
        ResetTokensNonNegative(capacity, rest, s, t);
      } else {
        WindowOpens(b, capacity, rate, events, s, t);
      }
    }
  }

  /** At the first event inside the window: refilling just before it changes nothing. */
  lemma WindowOpens(b: Bucket, capacity: int, rate: real, events: seq<Event>, s: real, t: real)
    requires rate >= 0.0 && capacity >= 0 && NonNegative(events) && Monotone(b.last, events)
    requires 0.0 <= b.tokens <= capacity as real
    requires events != [] && s <= events[0].time <= t
    ensures Granted(b, capacity, rate, events, s, t) as real
            <= capacity as real + Gain(rate, s, t) + ResetTokens(capacity, events, s, t) as real
  {
    var e := events[0];
    var r := Refilled(b, capacity, rate, e.time);
    AfterInRange(b, capacity, rate, e);
    RefillTwice(b, capacity, rate, e.time, e.time);
    assert Granted(r, capacity, rate, events, s, t) == Granted(b, capacity, rate, events, s, t);
    PaidFor(r, capacity, rate, events, s, t);
    GainSplits(rate, s, e.time, t);
    GainNonNegative(rate, s, e.time);
  }

  lemma RefillTwice(b: Bucket, capacity: int, rate: real, t: real, u: real)
    requires rate >= 0.0 && b.last <= t <= u
    ensures Refilled(Refilled(b, capacity, rate, t), capacity, rate, u) == Refilled(b, capacity, rate, u)
  {
    GainNonNegative(rate, t, u);
    GainNonNegative(rate, b.last, t);
    GainSplits(rate, b.last, t, u);
  }

  /** Two buckets that no later operation can tell apart. */
  ghost predicate Alike(a: Bucket, b: Bucket, capacity: int, rate: real, from: real) {
    a.last <= from && b.last <= from && Refilled(a, capacity, rate, from) == Refilled(b, capacity, rate, from)
  }

  function WithoutRefills(events: seq<Event>): seq<Event> {
    if events == [] then []
    else (if events[0].op.Refill? then [] else [events[0]]) + WithoutRefills(events[1..])
  }

  /** The answers to the acquisitions of a run, in order. */
  function Answers(b: Bucket, capacity: int, rate: real, events: seq<Event>): seq<bool>
    decreases |events|
  {
    if events == [] then []
    else
      (if events[0].op.Acquire? then [Grants(b, capacity, rate, events[0])] else [])
      + Answers(After(b, capacity, rate, events[0]), capacity, rate, events[1..])
  }

  lemma AlikeLater(a: Bucket, b: Bucket, capacity: int, rate: real, from: real, now: real)
    requires rate >= 0.0 && Alike(a, b, capacity, rate, from) && from <= now
    ensures Refilled(a, capacity, rate, now) == Refilled(b, capacity, rate, now)
  {
    RefillTwice(a, capacity, rate, from, now);
    RefillTwice(b, capacity, rate, from, now);
  }

  /** Refills and reads of available_tokens, wherever they are inserted, change no answer. */
  lemma {:induction false} RefillsChangeNothing(a: Bucket, b: Bucket, capacity: int, rate: real, from: real, events: seq<Event>)
    requires rate >= 0.0 && Alike(a, b, capacity, rate, from) && Monotone(from, events)
    ensures Answers(a, capacity, rate, events) == Answers(b, capacity, rate, WithoutRefills(events))
    decreases |events|
  {
    if events != [] {
      var e, rest := events[0], events[1..];
      AlikeLater(a, b, capacity, rate, from, e.time);
      var a' := After(a, capacity, rate, e);
      if e.op.Refill? {
        RefillTwice(a, capacity, rate, e.time, e.time);
        assert WithoutRefills(events) == WithoutRefills(rest);
        RefillsChangeNothing(a', b, capacity, rate, e.time, rest);
      } else {
        RefillsChangeNothing(a', After(b, capacity, rate, e), capacity, rate, e.time, rest);
        assert WithoutRefills(events)[1..] == WithoutRefills(rest);
      }
    }
  }

  /** Requests of no more tokens than the bucket can hold, each made when at least as many tokens have
      flowed in since the one before. */
  predicate Spaced(capacity: int, rate: real, events: seq<Event>) {
    forall i :: 0 <= i < |events| ==>
      && events[i].op.Acquire? && 0 <= events[i].op.n <= capacity
      && (i > 0 ==> Gain(rate, events[i - 1].time, events[i].time) >= events[i].op.n as real)
  }

  /** A client that keeps to the rate is never refused, if the bucket holds enough for its first request
      or that too has been waited for. */
  lemma {:induction false} SpacedNeverRefused(b: Bucket, capacity: int, rate: real, events: seq<Event>)
    requires rate > 0.0 && Spaced(capacity, rate, events) && Monotone(b.last, events)
    requires b.tokens >= 0.0
    requires events != [] ==>
      b.tokens >= events[0].op.n as real || Gain(rate, b.last, events[0].time) >= events[0].op.n as real
    ensures forall a <- Answers(b, capacity, rate, events) :: a
    decreases |events|
  {
    if events != [] {
      var e, rest := events[0], events[1..];
      GainNonNegative(rate, b.last, e.time);
      var b' := After(b, capacity, rate, e);
      assert Grants(b, capacity, rate, e);
      assert rest != [] ==> rest[0] == events[1];
      forall i | 0 <= i < |rest|
        ensures rest[i].op.Acquire? && 0 <= rest[i].op.n <= capacity
        ensures i > 0 ==> Gain(rate, rest[i - 1].time, rest[i].time) >= rest[i].op.n as real
      {
        assert rest[i] == events[i + 1];
        assert i > 0 ==> rest[i - 1] == events[i];
      }
      SpacedNeverRefused(b', capacity, rate, rest);
    }
  }
}
