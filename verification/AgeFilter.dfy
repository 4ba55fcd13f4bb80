/**
 The age filter of internal/frame/frame.go: a frame is late when its raw delay is more than maxAge
 above a baseline. The receiver keeps the baseline in two registers; here it is compared with the
 history of all arrivals.

 Times are integers (nanoseconds). The raw delay of a frame is the receiver's clock minus the
 sender's timestamp, so it is off by the difference of the clocks.
 */
module AgeFilter {
  import opened Base

  const OFFSET_WINDOW: int := 5_000_000_000
  const REBASELINE_AFTER: int := 1_000_000_000

  // ---------------------------------------------------------------- the code

  datatype Ages = Ages(
    haveOffset: bool,
    prevMinOffset: int,
    curMinOffset: int,
    windowStart: int,
    lateSince: Option<int>)

  const INITIAL_AGES := Ages(false, 0, 0, 0, None)

  /** The registers after an arrival, before its age is judged. */
  function Track(a: Ages, now: int, raw: int): Ages {
    var b := if !a.haveOffset then a.(haveOffset := true, prevMinOffset := raw, curMinOffset := raw, windowStart := now)
             else a.(curMinOffset := Min(raw, a.curMinOffset));
    if now - b.windowStart >= OFFSET_WINDOW
    then b.(prevMinOffset := b.curMinOffset, curMinOffset := raw, windowStart := now)
    else b
  }

  datatype Aged = Aged(a: Ages, refused: bool)

  function Judge(maxAge: int, a: Ages, now: int, raw: int): Aged {
    if raw - Min(a.prevMinOffset, a.curMinOffset) > maxAge then
      var since := if a.lateSince.Some? then a.lateSince.value else now;
      if now - since < REBASELINE_AFTER
      then Aged(a.(lateSince := Some(since)), true)
      else Aged(Ages(a.haveOffset, raw, raw, now, None), false)
    else
      Aged(a.(lateSince := None), false)
  }

  /** The age part of Accept. */
  function AgeStep(maxAge: int, a: Ages, now: int, raw: int): Aged {
    Judge(maxAge, Track(a, now, raw), now, raw)
  }

  // ---------------------------------------------------------------- the reference

  datatype Arrival = Arrival(now: int, raw: int)

  /** The least raw delay of the arrivals from i on. */
  function LeastRaw(hist: seq<Arrival>, i: nat): int
    requires i < |hist|
    decreases |hist|
  {
    var n := |hist| - 1;
    if i == n then hist[n].raw else Min(LeastRaw(hist[..n], i), hist[n].raw)
  }

  lemma {:induction false} LeastRawIsLeast(hist: seq<Arrival>, i: nat)
    requires i < |hist|
    ensures forall k :: i <= k < |hist| ==> LeastRaw(hist, i) <= hist[k].raw
    ensures exists k :: i <= k < |hist| && LeastRaw(hist, i) == hist[k].raw
    decreases |hist|
  {
    var n := |hist| - 1;
    if i == n {
      assert LeastRaw(hist, i) == hist[n].raw;
    } else {
      var init := hist[..n];
      LeastRawIsLeast(init, i);
      forall k | i <= k < n
        ensures LeastRaw(hist, i) <= hist[k].raw
      {
        assert init[k] == hist[k];
      }
      var k :| i <= k < n && LeastRaw(init, i) == init[k].raw;
      assert init[k] == hist[k];
      assert LeastRaw(hist, i) == hist[if LeastRaw(init, i) < hist[n].raw then k else n].raw;
    }
  }

  /** Where in the history the previous and the current window began, and the first arrival of the
      present block of refusals. */
  datatype Marks = Marks(prev: nat, cur: nat, late: Option<nat>)

  datatype Judged = Judged(m: Marks, refused: bool)

  /** The window marks after the last arrival of hist. */
  function Roll(m: Marks, hist: seq<Arrival>): Marks
    requires hist != [] && (|hist| > 1 ==> m.cur < |hist| - 1)
  {
    var k := |hist| - 1;
    if k == 0 then Marks(0, 0, None)
    else if hist[k].now - hist[m.cur].now >= OFFSET_WINDOW then m.(prev := m.cur, cur := k)
    else m
  }

  predicate MarksIn(m: Marks, n: nat) {
    m.prev <= m.cur < n && (m.late.Some? ==> m.late.value < n)
  }

  /** The last arrival is late when it is more than maxAge above the least delay since the previous
      window began; it is refused unless everything has been late for REBASELINE_AFTER, which
      begins both windows anew. */
  function RefStep(maxAge: int, m: Marks, hist: seq<Arrival>): Judged
    requires hist != [] && (|hist| > 1 ==> MarksIn(m, |hist| - 1))
  {
    var k := |hist| - 1;
    var r := Roll(m, hist);
    if hist[k].raw - LeastRaw(hist, r.prev) > maxAge then
      var first := if r.late.Some? then r.late.value else k;
      if hist[k].now - hist[first].now < REBASELINE_AFTER
      then Judged(r.(late := Some(first)), true)
      else Judged(Marks(k, k, None), false)
    else
      Judged(r.(late := None), false)
  }

  /** The marks after a whole history. */
  function MarksOf(maxAge: int, hist: seq<Arrival>): (m: Marks)
    ensures hist != [] ==> MarksIn(m, |hist|)
  {
    if hist == [] then Marks(0, 0, None) else RefStep(maxAge, MarksOf(maxAge, hist[..|hist| - 1]), hist).m
  }

  /** The registers hold what the marks say about the history. */
  ghost predicate Tracks(a: Ages, m: Marks, hist: seq<Arrival>) {
    if hist == [] then a == INITIAL_AGES
    else
      && a.haveOffset && MarksIn(m, |hist|)
      && a.windowStart == hist[m.cur].now
      && a.curMinOffset == LeastRaw(hist, m.cur)
      && Min(a.prevMinOffset, a.curMinOffset) == LeastRaw(hist, m.prev)
      && a.lateSince == (if m.late.Some? then Some(hist[m.late.value].now) else None)
  }

  lemma LeastRawGrows(hist: seq<Arrival>, x: Arrival, i: nat)
    requires i < |hist|
    ensures LeastRaw(hist + [x], i) == Min(LeastRaw(hist, i), x.raw)
  {
    assert (hist + [x])[..|hist|] == hist;
  }

  lemma LeastRawOfLast(hist: seq<Arrival>, x: Arrival)
    ensures LeastRaw(hist + [x], |hist|) == x.raw
  {
  }

  lemma TrackTracks(a: Ages, m: Marks, hist: seq<Arrival>, x: Arrival)
    requires Tracks(a, m, hist)
    ensures Tracks(Track(a, x.now, x.raw), Roll(m, hist + [x]), hist + [x])
  {
    LeastRawOfLast(hist, x);
    if hist != [] {
      LeastRawGrows(hist, x, m.cur);
      LeastRawGrows(hist, x, m.prev);
    }
  }

  /** Main result: the two registers are the least raw delay of all arrivals since the previous
      window began, or since the last new baseline; so the code refuses what the reference refuses. */
  lemma AgeStepTracks(maxAge: int, a: Ages, m: Marks, hist: seq<Arrival>, x: Arrival)
    requires Tracks(a, m, hist)
    ensures AgeStep(maxAge, a, x.now, x.raw).refused == RefStep(maxAge, m, hist + [x]).refused
    ensures Tracks(AgeStep(maxAge, a, x.now, x.raw).a, RefStep(maxAge, m, hist + [x]).m, hist + [x])
  {
    TrackTracks(a, m, hist, x);
    LeastRawOfLast(hist, x);
  }

  // ---------------------------------------------------------------- runs

  /** Which of the arrivals are refused for their age. */
  function Refusals(maxAge: int, a: Ages, xs: seq<Arrival>): seq<bool>
    decreases |xs|
  {
    if xs == [] then []
    else
      var s := AgeStep(maxAge, a, xs[0].now, xs[0].raw);
      [s.refused] + Refusals(maxAge, s.a, xs[1..])
  }

  lemma {:induction false} RefusalsLength(maxAge: int, a: Ages, xs: seq<Arrival>)
    ensures |Refusals(maxAge, a, xs)| == |xs|
    decreases |xs|
  {
    if xs != [] {
      RefusalsLength(maxAge, AgeStep(maxAge, a, xs[0].now, xs[0].raw).a, xs[1..]);
    }
  }

  /** Which of the arrivals xs, after those of hist, the reference refuses. */
  function RefRefusals(maxAge: int, m: Marks, hist: seq<Arrival>, xs: seq<Arrival>): seq<bool>
    requires hist != [] ==> MarksIn(m, |hist|)
    decreases |xs|
  {
    if xs == [] then []
    else
      var s := RefStep(maxAge, m, hist + [xs[0]]);
      [s.refused] + RefRefusals(maxAge, s.m, hist + [xs[0]], xs[1..])
  }

  /** Main result: over every run the code refuses what the reference refuses, which looks at the
      whole history. */
  lemma {:induction false} RefusalsFollowHistory(
    maxAge: int, a: Ages, m: Marks, hist: seq<Arrival>, xs: seq<Arrival>)
    requires Tracks(a, m, hist)
    ensures Refusals(maxAge, a, xs) == RefRefusals(maxAge, m, hist, xs)
    decreases |xs|
  {
    if xs != [] {
      AgeStepTracks(maxAge, a, m, hist, xs[0]);
      RefusalsFollowHistory(maxAge, AgeStep(maxAge, a, xs[0].now, xs[0].raw).a,
                            RefStep(maxAge, m, hist + [xs[0]]).m, hist + [xs[0]], xs[1..]);
    }
  }

  function Shifted(xs: seq<Arrival>, shift: int): seq<Arrival> {
    seq(|xs|, i requires 0 <= i < |xs| => Arrival(xs[i].now, xs[i].raw + shift))
  }

  function ShiftedAges(a: Ages, shift: int): Ages {
    if a.haveOffset then a.(prevMinOffset := a.prevMinOffset + shift, curMinOffset := a.curMinOffset + shift) else a
  }

  lemma StepShifts(maxAge: int, a: Ages, x: Arrival, shift: int)
    ensures var s := AgeStep(maxAge, a, x.now, x.raw);
            AgeStep(maxAge, ShiftedAges(a, shift), x.now, x.raw + shift) == Aged(ShiftedAges(s.a, shift), s.refused)
  {
  }

  /** Main result: the clocks need not agree. Moving all of the sender's timestamps by a constant
      changes no decision of the whole run. */
  lemma {:induction false} ClockDifferenceDoesNotMatter(maxAge: int, a: Ages, xs: seq<Arrival>, shift: int)
    ensures Refusals(maxAge, ShiftedAges(a, shift), Shifted(xs, shift)) == Refusals(maxAge, a, xs)
    decreases |xs|
  {
    if xs != [] {
      var x := xs[0];
      var s := AgeStep(maxAge, a, x.now, x.raw);
      StepShifts(maxAge, a, x, shift);
      hide AgeStep, ShiftedAges;
      assert Shifted(xs, shift)[1..] == Shifted(xs[1..], shift);
      ClockDifferenceDoesNotMatter(maxAge, s.a, xs[1..], shift);
    }
  }

  predicate InTimeOrder(xs: seq<Arrival>) {
    forall i, j :: 0 <= i <= j < |xs| ==> xs[i].now <= xs[j].now
  }

  /** While refusals go on, lateSince stays no later than their first arrival. */
  lemma {:induction false} RefusedFromStart(maxAge: int, a: Ages, xs: seq<Arrival>, j: nat, since: int)
    requires InTimeOrder(xs) && j < |xs| && |Refusals(maxAge, a, xs)| == |xs|
    requires forall k :: 0 <= k <= j ==> Refusals(maxAge, a, xs)[k]
    requires a.lateSince.Some? && a.lateSince.value <= since
    ensures xs[j].now - since < REBASELINE_AFTER
    decreases |xs|
  {
    var s := AgeStep(maxAge, a, xs[0].now, xs[0].raw);
    RefusalsLength(maxAge, s.a, xs[1..]);
    assert Refusals(maxAge, a, xs)[0];
    assert s.refused && s.a.lateSince == a.lateSince;
    if j > 0 {
      forall k | 0 <= k <= j - 1
        ensures Refusals(maxAge, s.a, xs[1..])[k]
      {
        assert Refusals(maxAge, a, xs)[k + 1];
      }
      RefusedFromStart(maxAge, s.a, xs[1..], j - 1, since);
    }
  }

  /** Main result: a block of consecutive refusals spans less than REBASELINE_AFTER, whatever the
      delays are; so frames get through again within that time. */
  lemma {:induction false} RefusalBlocksAreShort(maxAge: int, a: Ages, xs: seq<Arrival>, i: nat, j: nat)
    requires InTimeOrder(xs) && i <= j < |xs| && |Refusals(maxAge, a, xs)| == |xs|
    requires forall k :: i <= k <= j ==> Refusals(maxAge, a, xs)[k]
    requires a.lateSince.Some? && xs != [] ==> a.lateSince.value <= xs[0].now
    ensures xs[j].now - xs[i].now < REBASELINE_AFTER
    decreases |xs|
  {
    var s := AgeStep(maxAge, a, xs[0].now, xs[0].raw);
    RefusalsLength(maxAge, s.a, xs[1..]);
    if i > 0 {
      forall k | i - 1 <= k <= j - 1
        ensures Refusals(maxAge, s.a, xs[1..])[k]
      {
        assert Refusals(maxAge, a, xs)[k + 1];
      }
      RefusalBlocksAreShort(maxAge, s.a, xs[1..], i - 1, j - 1);
    } else if j > 0 {
      assert Refusals(maxAge, a, xs)[0];
      forall k | 0 <= k <= j - 1
        ensures Refusals(maxAge, s.a, xs[1..])[k]
      {
        assert Refusals(maxAge, a, xs)[k + 1];
      }
      RefusedFromStart(maxAge, s.a, xs[1..], j - 1, xs[0].now);
    }
  }
}
