/** The token bucket that limits write speed (internal/sched/shaper.go), over the reals. */
module Shaping {
  import opened Base

  /** Bytes per second, and the most bytes sent without waiting. */
  datatype Limit = Limit(rate: real, burst: real)

  predicate IsLimit(l: Limit) {
    l.rate > 0.0 && l.burst >= 0.0
  }

  /** The bucket; `last` is when it was last refilled. */
  datatype Bucket = Bucket(tokens: real, last: Option<real>)

  function MinReal(a: real, b: real): real {
    if a < b then a else b
  }

  function MaxReal(a: real, b: real): real {
    if a > b then a else b
  }

  function Refilled(l: Limit, b: Bucket, now: real): real {
    match b.last
    case None => b.tokens
    case Some(last) => MinReal(l.burst, b.tokens + (now - last) * l.rate)
  }

  function Charged(l: Limit, b: Bucket, n: nat, now: real): Bucket {
    Bucket(Refilled(l, b, now) - n as real, Some(now))
  }

  /** How long Wait sleeps on a bucket that was charged. */
  function SleepFor(l: Limit, tokens: real): real
    requires IsLimit(l)
  {
    if tokens < 0.0 then -tokens / l.rate else 0.0
  }

  class Shaper {
    const limit: Limit
    var tokens: real
    var last: Option<real>

    function View(): Bucket
      reads this
    {
      Bucket(tokens, last)
    }

    constructor (limit: Limit)
      ensures this.limit == limit && View() == Bucket(limit.burst, None)
    {
      this.limit := limit;
      tokens, last := limit.burst, None;
    }

    method Wait(n: nat, now: real) returns (sleep: real)
      requires IsLimit(limit)
      modifies this
      ensures View() == Charged(limit, old(View()), n, now) && sleep == SleepFor(limit, tokens)
    {
      if last.Some? {
        tokens := MinReal(limit.burst, tokens + (now - last.value) * limit.rate);
      }
      last := Some(now);
      tokens := tokens - n as real;
      sleep := 0.0;
      if tokens < 0.0 {
        sleep := -tokens / limit.rate;
      }
    }
  }

  const MAX_PACKET: real := 1514.0

  /** No shaper for a limit that is not positive; the burst is 5 ms of data, at least two packets. */
  method NewShaper(mbps: real) returns (s: Shaper?)
    ensures s == null <==> mbps <= 0.0
    ensures s != null ==>
      && fresh(s) && IsLimit(s.limit) && s.View() == Bucket(s.limit.burst, None)
      && s.limit.rate == mbps * 125000.0 && s.limit.burst == MaxReal(s.limit.rate * 0.005, 3028.0)
  {
    if mbps <= 0.0 {
      return null;
    }
    var rate := mbps * 1000000.0 / 8.0;
    s := new Shaper(Limit(rate, MaxReal(rate * 0.005, 2.0 * MAX_PACKET)));
  }

  // ---------------------------------------------------------------- runs

  /** A call of Wait: its size, and when it started and returned. */
  datatype Call = Call(n: nat, arrival: real, release: real)

  /** The bucket after the first k calls. */
  function After(l: Limit, calls: seq<Call>, k: nat): Bucket
    requires k <= |calls|
  {
    if k == 0 then Bucket(l.burst, None)
    else Charged(l, After(l, calls, k - 1), calls[k - 1].n, calls[k - 1].arrival)
  }

  /** What call k sleeps. */
  function Asked(l: Limit, calls: seq<Call>, k: nat): real
    requires IsLimit(l) && k < |calls|
  {
    SleepFor(l, After(l, calls, k + 1).tokens)
  }

  /** Every call returns at most `early` before its sleep ends; rounding the sleep down to nanoseconds
      makes it less than one of them. */
  ghost predicate Obeyed(l: Limit, calls: seq<Call>, early: real)
    requires IsLimit(l)
  {
    forall k :: 0 <= k < |calls| ==> calls[k].release >= calls[k].arrival + Asked(l, calls, k) - early
  }

  /** The bytes of the calls from i up to but not including k. */
  function Granted(calls: seq<Call>, i: nat, k: nat): nat
    requires i <= k <= |calls|
    decreases k
  {
    if i == k then 0 else Granted(calls, i, k - 1) + calls[k - 1].n
  }

  /** The bytes the link carries in a time x, and the burst. */
  function Allowance(l: Limit, x: real): real {
    l.burst + l.rate * x
  }

  /** A window of length x that took g, followed by a time d in which n more are taken. */
  lemma Extend(l: Limit, x: real, g: real, d: real, n: real)
    ensures Allowance(l, x) - g + d * l.rate - n == Allowance(l, x + d) - (g + n)
  {
  }

  lemma NoTime(l: Limit, x: real)
    requires x == 0.0
    ensures Allowance(l, x) == l.burst
  {
  }

  lemma DivideBack(a: real, b: real)
    requires b > 0.0
    ensures (a / b) * b == a
  {
  }

  lemma LastArrival(l: Limit, calls: seq<Call>, k: nat)
    requires 0 < k <= |calls|
    ensures After(l, calls, k).last == Some(calls[k - 1].arrival)
  {
  }

  lemma AtMostFull(l: Limit, calls: seq<Call>, i: nat)
    requires i < |calls|
    ensures Refilled(l, After(l, calls, i), calls[i].arrival) <= l.burst
  {
  }

  /** The bucket owes at least what the window took beyond its refill. */
  lemma {:induction false} WindowDebt(l: Limit, calls: seq<Call>, i: nat, k: nat)
    requires i < k <= |calls|
    ensures After(l, calls, k).tokens <=
            Allowance(l, calls[k - 1].arrival - calls[i].arrival) - Granted(calls, i, k) as real
    decreases k
  {
    if i == k - 1 {
      AtMostFull(l, calls, i);
      NoTime(l, calls[k - 1].arrival - calls[i].arrival);
      assert Granted(calls, i, k) == Granted(calls, i, i) + calls[i].n;
      hide Allowance, Refilled;
    } else {
      WindowDebt(l, calls, i, k - 1);
      LastArrival(l, calls, k - 1);
      Extend(l, calls[k - 2].arrival - calls[i].arrival, Granted(calls, i, k - 1) as real,
             calls[k - 1].arrival - calls[k - 2].arrival, calls[k - 1].n as real);
    }
  }

  lemma NotNegative(a: real, b: real)
    requires a >= 0.0 && b > 0.0
    ensures a * b >= 0.0
  {
  }

  lemma SleepCovers(l: Limit, tokens: real)
    requires IsLimit(l)
    ensures SleepFor(l, tokens) * l.rate >= -tokens
    ensures SleepFor(l, tokens) > 0.0 ==> SleepFor(l, tokens) * l.rate == -tokens
  {
    DivideBack(-tokens, l.rate);
  }

  lemma PauseCovers(l: Limit, tokens: real, x: real, g: real, pause: real, whole: real)
    requires IsLimit(l) && pause >= SleepFor(l, tokens)
    requires tokens <= Allowance(l, x) - g && whole == x + pause
    ensures g <= Allowance(l, whole)
  {
    var s := SleepFor(l, tokens);
    SleepCovers(l, tokens);
    NotNegative(pause - s, l.rate);
    hide SleepFor;
    Extend(l, x, g, s, 0.0);
    Extend(l, x + s, g, pause - s, 0.0);
    hide Allowance;
    assert (x + s) + (pause - s) == whole;
  }

  /** Main result: in every window of calls, the bytes granted are at most the burst plus the rate
      times the time from the window's first arrival to its last release, and what the rounding adds. */
  lemma RateIsBounded(l: Limit, calls: seq<Call>, early: real, i: nat, k: nat)
    requires IsLimit(l) && Obeyed(l, calls, early) && i <= k < |calls|
    ensures Granted(calls, i, k + 1) as real <= Allowance(l, calls[k].release - calls[i].arrival + early)
  {
    var pause := calls[k].release - calls[k].arrival + early;
    hide Allowance;
    WindowDebt(l, calls, i, k + 1);
    assert pause >= Asked(l, calls, k);
    PauseCovers(l, After(l, calls, k + 1).tokens, calls[k].arrival - calls[i].arrival, Granted(calls, i, k + 1) as real,
                pause, calls[k].release - calls[i].arrival + early);
  }

  /** Some window took exactly what the bucket gave: the one since it was last full. */
  lemma {:induction false} FullWindow(l: Limit, calls: seq<Call>, k: nat) returns (i: nat)
    requires IsLimit(l) && 0 < k <= |calls|
    ensures i < k
    ensures After(l, calls, k).tokens ==
            Allowance(l, calls[k - 1].arrival - calls[i].arrival) - Granted(calls, i, k) as real
  {
    var before := After(l, calls, k - 1);
    if Refilled(l, before, calls[k - 1].arrival) == l.burst {
      i := k - 1;
      NoTime(l, calls[k - 1].arrival - calls[i].arrival);
      assert Granted(calls, i, k) == Granted(calls, i, i) + calls[i].n;
    } else {
      LastArrival(l, calls, k - 1);
      i := FullWindow(l, calls, k - 1);
      Extend(l, calls[k - 2].arrival - calls[i].arrival, Granted(calls, i, k - 1) as real,
             calls[k - 1].arrival - calls[k - 2].arrival, calls[k - 1].n as real);
    }
  }

  lemma PauseEnds(l: Limit, tokens: real, x: real, g: real, whole: real)
    requires IsLimit(l) && SleepFor(l, tokens) > 0.0
    requires tokens == Allowance(l, x) - g && whole == x + SleepFor(l, tokens)
    ensures g == Allowance(l, whole)
  {
    SleepCovers(l, tokens);
    Extend(l, x, g, SleepFor(l, tokens), 0.0);
    hide SleepFor, Allowance;
  }

  /** Main result: Wait sleeps no longer than that bound needs: when it sleeps, the bound of some
      window ends exactly with the sleep. */
  lemma SleepIsNeeded(l: Limit, calls: seq<Call>, k: nat) returns (i: nat)
    requires IsLimit(l) && k < |calls| && Asked(l, calls, k) > 0.0
    ensures i <= k
    ensures Granted(calls, i, k + 1) as real ==
            Allowance(l, calls[k].arrival + Asked(l, calls, k) - calls[i].arrival)
  {
    i := FullWindow(l, calls, k + 1);
    hide SleepFor, Allowance, After, Granted;
    PauseEnds(l, After(l, calls, k + 1).tokens, calls[k].arrival - calls[i].arrival, Granted(calls, i, k + 1) as real,
              calls[k].arrival + Asked(l, calls, k) - calls[i].arrival);
  }
}
