/** The fixed-window rate limiter, with an injected clock that never goes back. */
module RateLimit {
  import opened Common

  datatype RawLimit = RawLimit(maxCalls: int, windowSeconds: int)

  type Limit = l: RawLimit | l.maxCalls >= 1 && l.windowSeconds >= 1 witness RawLimit(1, 1)

  datatype Counter = Counter(windowStart: real, used: int)

  datatype Verdict = Verdict(allowed: bool, remaining: int, retryAfterSeconds: int)

  type Key = (string, string)

  const ANONYMOUS_ACTOR := "__anonymous__"

  function Ceil(x: real): int {
    -(-x).Floor
  }

  function KeyOf(actor: Option<string>, tool: string): Key {
    (if actor.Some? then actor.value else ANONYMOUS_ACTOR, tool)
  }

  /** The counter a call at `now` is charged to. */
  function Current(counter: Option<Counter>, now: real, limit: Limit): Counter {
    if counter.None? || now - counter.value.windowStart >= limit.windowSeconds as real
    then Counter(now, 0) else counter.value
  }

  predicate Allows(counter: Option<Counter>, now: real, limit: Limit) {
    Current(counter, now, limit).used < limit.maxCalls
  }

  function Charged(counter: Option<Counter>, now: real, limit: Limit): Counter {
    var c := Current(counter, now, limit);
    if Allows(counter, now, limit) then c.(used := c.used + 1) else c
  }

  function Judge(counter: Option<Counter>, now: real, limit: Limit): Verdict {
    var c := Current(counter, now, limit);
    if Allows(counter, now, limit) then Verdict(true, limit.maxCalls - (c.used + 1), 0)
    else
      var wait := Ceil(limit.windowSeconds as real - (now - c.windowStart));
      Verdict(false, 0, if wait < 1 then 1 else wait)
  }

  function Lookup(counters: map<Key, Counter>, key: Key): Option<Counter> {
    if key in counters then Some(counters[key]) else None
  }

  class FixedWindowRateLimiter {
    var counters: map<Key, Counter>

    constructor ()
      ensures counters == map[]
    {
      counters := map[];
    }

    method TryConsume(actor: Option<string>, tool: string, limit: Limit, now: real) returns (verdict: Verdict)
      modifies this
      ensures verdict == Judge(Lookup(old(counters), KeyOf(actor, tool)), now, limit)
      ensures counters == old(counters)[KeyOf(actor, tool) :=
                            Charged(Lookup(old(counters), KeyOf(actor, tool)), now, limit)]
    {
      var key := KeyOf(actor, tool);
      if key !in counters || now - counters[key].windowStart >= limit.windowSeconds as real {
        counters := counters[key := Counter(now, 0)];
      }
      var counter := counters[key];
      if counter.used >= limit.maxCalls {
        var elapsed := now - counter.windowStart;
        var retryAfter := Ceil(limit.windowSeconds as real - elapsed);
        return Verdict(false, 0, if retryAfter < 1 then 1 else retryAfter);
      }
      counters := counters[key := counter.(used := counter.used + 1)];
      return Verdict(true, limit.maxCalls - (counter.used + 1), 0);
    }
  }

  // ---------------------------------------------------------------------------
  // Histories of one key
  // ---------------------------------------------------------------------------

  ghost predicate Monotone(times: seq<real>) {
    forall i, j | 0 <= i <= j < |times| :: times[i] <= times[j]
  }

  function Final(times: seq<real>, limit: Limit): Option<Counter> {
    if times == [] then None
    else Some(Charged(Final(times[..|times| - 1], limit), times[|times| - 1], limit))
  }

  /** The times at which a call was granted. */
  function Grants(times: seq<real>, limit: Limit): seq<real> {
    if times == [] then []
    else
      var front, now := times[..|times| - 1], times[|times| - 1];
      Grants(front, limit) + if Allows(Final(front, limit), now, limit) then [now] else []
  }

  /** How many of the times lie in the half-open span. */
  function CountIn(times: seq<real>, lo: real, hi: real): nat {
    if times == [] then 0
    else
      var last := times[|times| - 1];
      CountIn(times[..|times| - 1], lo, hi) + if lo <= last < hi then 1 else 0
  }

  function CountFrom(times: seq<real>, lo: real): nat {
    if times == [] then 0
    else CountFrom(times[..|times| - 1], lo) + if lo <= times[|times| - 1] then 1 else 0
  }

  function CountAbove(times: seq<real>, lo: real): nat {
    if times == [] then 0
    else CountAbove(times[..|times| - 1], lo) + if lo < times[|times| - 1] then 1 else 0
  }

  lemma {:induction false} CountsCompare(times: seq<real>, a: real, b: real, hi: real)
    ensures a <= b ==> CountAbove(times, b) <= CountAbove(times, a)
    ensures a < b ==> CountFrom(times, b) <= CountAbove(times, a)
    ensures CountIn(times, b, hi) <= CountFrom(times, b)
    decreases |times|
  {
    if times != [] {
      CountsCompare(times[..|times| - 1], a, b, hi);
    }
  }

  lemma {:induction false} NothingFrom(times: seq<real>, lo: real)
    requires forall i | 0 <= i < |times| :: times[i] < lo
    ensures CountFrom(times, lo) == 0 && CountAbove(times, lo) == 0
    decreases |times|
  {
    if times != [] {
      NothingFrom(times[..|times| - 1], lo);
    }
  }

  lemma CountsSnoc(times: seq<real>, t: real, lo: real)
    ensures CountFrom(times + [t], lo) == CountFrom(times, lo) + if lo <= t then 1 else 0
    ensures CountAbove(times + [t], lo) == CountAbove(times, lo) + if lo < t then 1 else 0
  {
    assert (times + [t])[..|times|] == times;
  }

  /** The books of a history: what the counter knows about the grants of its own and the previous window. */
  ghost predicate Books(times: seq<real>, limit: Limit, c: Counter, grants: seq<real>) {
    var w := limit.windowSeconds as real;
    && times != [] && c.windowStart <= times[|times| - 1] < c.windowStart + w
    && 1 <= c.used <= limit.maxCalls
    && (forall i | 0 <= i < |grants| :: grants[i] <= times[|times| - 1])
    && CountFrom(grants, c.windowStart) == c.used
    && CountAbove(grants, c.windowStart) <= c.used - 1
    && CountAbove(grants, c.windowStart - w) <= limit.maxCalls - 1 + c.used
  }

  lemma BooksOpen(before: seq<real>, now: real, limit: Limit, c: Option<Counter>, grants: seq<real>)
    requires before != [] ==> before[|before| - 1] <= now
    requires if before == [] then c.None? && grants == [] else c.Some? && Books(before, limit, c.value, grants)
    requires Current(c, now, limit) == Counter(now, 0)
    ensures Books(before + [now], limit, Counter(now, 1), grants + [now])
  {
    var w := limit.windowSeconds as real;
    CountsSnoc(grants, now, now);
    CountsSnoc(grants, now, now - w);
    if before != [] && c.value.windowStart + w <= now {
      NothingFrom(grants, now);
      CountsCompare(grants, c.value.windowStart, now - w, now);
    }
  }

  lemma BooksGrant(before: seq<real>, now: real, limit: Limit, c: Counter, grants: seq<real>)
    requires Books(before, limit, c, grants) && before[|before| - 1] <= now < c.windowStart + limit.windowSeconds as real
    requires c.used < limit.maxCalls
    ensures Books(before + [now], limit, c.(used := c.used + 1), grants + [now])
  {
    CountsSnoc(grants, now, c.windowStart);
    CountsSnoc(grants, now, c.windowStart - limit.windowSeconds as real);
  }

  lemma {:induction false} BooksHold(times: seq<real>, limit: Limit)
    requires Monotone(times) && times != []
    ensures Books(times, limit, Final(times, limit).value, Grants(times, limit))
    decreases |times|
  {
    var before, now := times[..|times| - 1], times[|times| - 1];
    assert times == before + [now];
    var c, grants := Final(before, limit), Grants(before, limit);
    if before != [] {
      BooksHold(before, limit);
    }
    if Current(c, now, limit) == Counter(now, 0) {
      BooksOpen(before, now, limit, c, grants);
    } else if c.value.used < limit.maxCalls {
      BooksGrant(before, now, limit, c.value, grants);
    } else {
      assert Grants(times, limit) == grants;
    }
  }

  /** At no point does the open window hold more grants than the limit. */
  lemma WindowRespectsLimit(times: seq<real>, limit: Limit)
    requires Monotone(times) && times != []
    ensures CountFrom(Grants(times, limit), Final(times, limit).value.windowStart) <= limit.maxCalls
  {
    BooksHold(times, limit);
  }

  /**
    In any half-open span as long as a window at most 2 * maxCalls - 1 calls are granted: a span
    that reaches into the next window has left out the grant that opened the first.
   */
  lemma {:induction false} SpanRespectsLimit(times: seq<real>, limit: Limit, t: real)
    requires Monotone(times)
    ensures CountIn(Grants(times, limit), t, t + limit.windowSeconds as real) <= 2 * limit.maxCalls - 1
    decreases |times|
  {
    if times != [] {
      var before, now, w := times[..|times| - 1], times[|times| - 1], limit.windowSeconds as real;
      var grants := Grants(times, limit);
      if now >= t + w {
        SpanRespectsLimit(before, limit, t);
        assert grants == Grants(before, limit) || grants[..|grants| - 1] == Grants(before, limit);
      } else {
        BooksHold(times, limit);
        CountsCompare(grants, Final(times, limit).value.windowStart - w, t, t + w);
      }
    }
  }

  /** A history of granted calls up to `last`: the counter it leaves, and how many calls lie in a span. */
  ghost predicate AllGranted(times: seq<real>, limit: Limit, last: real, c: Counter, lo: real, hi: real, n: int) {
    && Monotone(times) && (forall i | 0 <= i < |times| :: times[i] <= last)
    && Grants(times, limit) == times && Final(times, limit) == Some(c) && CountIn(times, lo, hi) == n
  }

  /** One more granted call inside the span. */
  lemma OneMore(times: seq<real>, limit: Limit, last: real, c: Counter, lo: real, hi: real, n: int, t: real)
    requires AllGranted(times, limit, last, c, lo, hi, n) && last <= t && lo <= t < hi
    requires Allows(Some(c), t, limit)
    ensures AllGranted(times + [t], limit, t, Charged(Some(c), t, limit), lo, hi, n + 1)
  {
    assert (times + [t])[..|times|] == times;
  }

  /** Calls at one time until the open window is full. */
  lemma {:induction false} FillWindow(times: seq<real>, limit: Limit, last: real, c: Counter, lo: real, hi: real, n: int, t: real)
    returns (filled: seq<real>)
    requires AllGranted(times, limit, last, c, lo, hi, n) && last <= t && lo <= t < hi
    requires t - c.windowStart < limit.windowSeconds as real && c.used <= limit.maxCalls
    ensures AllGranted(filled, limit, t, c.(used := limit.maxCalls), lo, hi, n + limit.maxCalls - c.used)
    decreases limit.maxCalls - c.used
  {
    if c.used == limit.maxCalls {
      filled := times;
    } else {
      OneMore(times, limit, last, c, lo, hi, n, t);
      filled := FillWindow(times + [t], limit, t, c.(used := c.used + 1), lo, hi, n + 1, t);
    }
  }

  /** A first call at zero, outside the span. */
  lemma FirstCall(limit: Limit, lo: real, hi: real) returns (times: seq<real>)
    requires 0.0 < lo
    ensures AllGranted(times, limit, 0.0, Counter(0.0, 1), lo, hi, 0)
  {
    times := [0.0];
    assert times[..0] == [];
    assert Final([], limit) == None && Grants([], limit) == [] && CountIn([], lo, hi) == 0;
    assert Charged(None, 0.0, limit) == Counter(0.0, 1);
    assert Grants(times, limit) == [0.0] && Final(times, limit) == Some(Counter(0.0, 1)) && CountIn(times, lo, hi) == 0;
  }

  /** A window that is full by `t`, and a full one after it. */
  lemma TwoWindows(first: seq<real>, limit: Limit, w: real, t: real) returns (times: seq<real>)
    requires w == limit.windowSeconds as real && 0.0 < t < w
    requires AllGranted(first, limit, 0.0, Counter(0.0, 1), t, t + w, 0)
    ensures AllGranted(times, limit, w, Counter(w, limit.maxCalls), t, t + w, 2 * limit.maxCalls - 1)
  {
    var m := limit.maxCalls;
    var opening := FillWindow(first, limit, 0.0, Counter(0.0, 1), t, t + w, 0, t);
    OneMore(opening, limit, t, Counter(0.0, m), t, t + w, m - 1, w);
    times := FillWindow(opening + [w], limit, w, Counter(w, 1), t, t + w, m, w);
  }

  /**
    For every limit the bound is reached: one call opens a window, the others it has room for come
    half way through it, and a full window follows at once.
   */
  lemma SpanBoundIsTight(limit: Limit) returns (times: seq<real>, t: real)
    ensures Monotone(times)
    ensures CountIn(Grants(times, limit), t, t + limit.windowSeconds as real) == 2 * limit.maxCalls - 1
  {
    var w := limit.windowSeconds as real;
    t := w / 2.0;
    var first := FirstCall(limit, t, t + w);
    times := TwoWindows(first, limit, w, t);
  }

  /** A denial changes nothing, and its wait is exact: the next call is granted from then on, not before. */
  lemma RetryAfterIsExact(counter: Option<Counter>, now: real, limit: Limit, k: nat)
    requires counter.Some? ==> counter.value.windowStart <= now
    requires !Judge(counter, now, limit).allowed
    ensures Charged(counter, now, limit) == counter.value
    ensures Judge(counter, now, limit).retryAfterSeconds >= 1
    ensures Judge(counter, now + k as real, limit).allowed <==> k >= Judge(counter, now, limit).retryAfterSeconds
  {
    var rest := limit.windowSeconds as real - (now - counter.value.windowStart);
    assert rest > 0.0;
    assert k >= Ceil(rest) <==> k as real >= rest by {
      assert (-rest).Floor as real <= -rest < (-rest).Floor as real + 1.0;
    }
  }

  // ---------------------------------------------------------------------------
  // Many keys
  // ---------------------------------------------------------------------------

  datatype Call = Call(actor: Option<string>, tool: string, time: real)

  function CountersAfter(calls: seq<Call>, limits: string -> Limit): map<Key, Counter> {
    if calls == [] then map[]
    else
      var front, call := CountersAfter(calls[..|calls| - 1], limits), calls[|calls| - 1];
      var key := KeyOf(call.actor, call.tool);
      front[key := Charged(Lookup(front, key), call.time, limits(call.tool))]
  }

  /** Actors are told apart by name; only a caller without a name is taken for the one named as anonymous. */
  predicate SameActor(a: Option<string>, b: Option<string>) {
    a == b || (a == None && b == Some("__anonymous__")) || (a == Some("__anonymous__") && b == None)
  }

  /** The times of an actor's own calls of a tool. */
  function TimesOf(calls: seq<Call>, actor: Option<string>, tool: string): seq<real> {
    if calls == [] then []
    else
      var last := calls[|calls| - 1];
      TimesOf(calls[..|calls| - 1], actor, tool) +
      if SameActor(last.actor, actor) && last.tool == tool then [last.time] else []
  }

  /** The verdicts an actor's own calls of a tool got, oldest first. */
  function VerdictsOf(calls: seq<Call>, limits: string -> Limit, actor: Option<string>, tool: string): (verdicts: seq<bool>)
    ensures |verdicts| == |TimesOf(calls, actor, tool)|
  {
    if calls == [] then []
    else
      var front, last := calls[..|calls| - 1], calls[|calls| - 1];
      VerdictsOf(front, limits, actor, tool) +
      if SameActor(last.actor, actor) && last.tool == tool
      then [Judge(Lookup(CountersAfter(front, limits), KeyOf(last.actor, last.tool)), last.time, limits(last.tool)).allowed]
      else []
  }

  /**
    Actors and tools never affect each other: the counter is the one the actor's own calls of the
    tool alone would leave, and so are the verdicts.
   */
  lemma {:induction false} KeysAreIndependent(calls: seq<Call>, limits: string -> Limit, actor: Option<string>, tool: string)
    ensures Lookup(CountersAfter(calls, limits), KeyOf(actor, tool)) == Final(TimesOf(calls, actor, tool), limits(tool))
    ensures Granted(TimesOf(calls, actor, tool), VerdictsOf(calls, limits, actor, tool))
            == Grants(TimesOf(calls, actor, tool), limits(tool))
    decreases |calls|
  {
    if calls != [] {
      var before, last := calls[..|calls| - 1], calls[|calls| - 1];
      KeysAreIndependent(before, limits, actor, tool);
      var times, verdicts := TimesOf(before, actor, tool), VerdictsOf(before, limits, actor, tool);
      if SameActor(last.actor, actor) && last.tool == tool {
        assert KeyOf(last.actor, last.tool) == KeyOf(actor, tool);
        assert TimesOf(calls, actor, tool)[..|times|] == times;
        assert VerdictsOf(calls, limits, actor, tool)[..|verdicts|] == verdicts;
      } else {
        assert KeyOf(last.actor, last.tool) != KeyOf(actor, tool);
        assert TimesOf(calls, actor, tool) == times && VerdictsOf(calls, limits, actor, tool) == verdicts;
      }
    }
  }

  /** The times with a positive verdict. */
  function Granted(times: seq<real>, verdicts: seq<bool>): seq<real>
    requires |times| == |verdicts|
  {
    if times == [] then []
    else
      Granted(times[..|times| - 1], verdicts[..|times| - 1]) + if verdicts[|times| - 1] then [times[|times| - 1]] else []
  }

  /** All calls are made on one clock. */
  ghost predicate InOrder(calls: seq<Call>) {
    forall i, j | 0 <= i <= j < |calls| :: calls[i].time <= calls[j].time
  }

  lemma {:induction false} TimesOfMonotone(calls: seq<Call>, actor: Option<string>, tool: string)
    requires InOrder(calls)
    ensures Monotone(TimesOf(calls, actor, tool))
    ensures forall i | 0 <= i < |TimesOf(calls, actor, tool)| ::
              calls != [] && TimesOf(calls, actor, tool)[i] <= calls[|calls| - 1].time
    decreases |calls|
  {
    if calls != [] {
      TimesOfMonotone(calls[..|calls| - 1], actor, tool);
    }
  }

  lemma OwnTimesMonotone(calls: seq<Call>, actor: Option<string>, tool: string)
    requires InOrder(calls)
    ensures Monotone(TimesOf(calls, actor, tool))
  {
    TimesOfMonotone(calls, actor, tool);
  }

  lemma OwnGrants(calls: seq<Call>, limits: string -> Limit, actor: Option<string>, tool: string)
    ensures Granted(TimesOf(calls, actor, tool), VerdictsOf(calls, limits, actor, tool))
            == Grants(TimesOf(calls, actor, tool), limits(tool))
  {
    KeysAreIndependent(calls, limits, actor, tool);
  }

  /** The half-open window-long span from t holds no more grants than a fixed window admits. */
  predicate SpanWithin(granted: seq<real>, limit: Limit, t: real) {
    CountIn(granted, t, t + limit.windowSeconds as real) <= 2 * limit.maxCalls - 1
  }

  lemma GrantedRespectsLimit(times: seq<real>, verdicts: seq<bool>, limit: Limit, t: real)
    requires |times| == |verdicts| && Monotone(times) && Granted(times, verdicts) == Grants(times, limit)
    ensures SpanWithin(Granted(times, verdicts), limit, t)
  {
    SpanRespectsLimit(times, limit, t);
  }

  /** In any interleaving on one clock, no actor is granted more calls of a tool in a span than the tool's limit admits. */
  lemma EveryKeyRespectsItsLimit(calls: seq<Call>, limits: string -> Limit, actor: Option<string>, tool: string, t: real)
    requires InOrder(calls)
    ensures SpanWithin(Granted(TimesOf(calls, actor, tool), VerdictsOf(calls, limits, actor, tool)), limits(tool), t)
  {
    OwnGrants(calls, limits, actor, tool);
    OwnTimesMonotone(calls, actor, tool);
    GrantedRespectsLimit(TimesOf(calls, actor, tool), VerdictsOf(calls, limits, actor, tool), limits(tool), t);
  }
}
