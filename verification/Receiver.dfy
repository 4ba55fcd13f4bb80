/** The Receiver of internal/frame/frame.go: a ring of 1024 bits and the age registers. */
module Receiving {
  import opened Base
  import opened Bits
  import opened Framing
  import opened SeqWindow
  import opened AgeFilter

  const MILLISECOND := 1_000_000

  /** The state of a receiver as a value. */
  datatype ReceiverState = ReceiverState(ages: Ages, window: Window)

  const NEW_RECEIVER := ReceiverState(INITIAL_AGES, EMPTY_WINDOW)

  datatype Received = Received(r: ReceiverState, verdict: Verdict)

  /** The receiver's clock minus the time the frame was sent. */
  function RawDelay(f: Frame, now: int): int {
    now - f.timestampMS * MILLISECOND
  }

  function AcceptFrame(maxAge: int, r: ReceiverState, f: Frame, now: int): Received {
    var aged := AgeStep(maxAge, r.ages, now, RawDelay(f, now));
    if aged.refused then Received(r.(ages := aged.a), TtlExceeded)
    else
      var d := Admit(r.window, f.sn);
      Received(ReceiverState(aged.a, d.w), d.verdict)
  }

  // ---------------------------------------------------------------- runs of frames

  datatype Heard = Heard(f: Frame, now: int)

  /** The receiver after these frames. */
  function After(maxAge: int, h: seq<Heard>): ReceiverState {
    if h == [] then NEW_RECEIVER
    else AcceptFrame(maxAge, After(maxAge, h[..|h| - 1]), h[|h| - 1].f, h[|h| - 1].now).r
  }

  function Delays(h: seq<Heard>): seq<Arrival> {
    seq(|h|, i requires 0 <= i < |h| => Arrival(h[i].now, RawDelay(h[i].f, h[i].now)))
  }

  lemma DelaysGrow(h: seq<Heard>, x: Heard)
    ensures Delays(h + [x]) == Delays(h) + [Arrival(x.now, RawDelay(x.f, x.now))]
  {
  }

  lemma AcceptTracks(maxAge: int, r: ReceiverState, m: Marks, hist: seq<Arrival>, f: Frame, now: int)
    requires Tracks(r.ages, m, hist)
    ensures var all := hist + [Arrival(now, RawDelay(f, now))];
            Tracks(AcceptFrame(maxAge, r, f, now).r.ages, RefStep(maxAge, m, all).m, all)
  {
    AgeStepTracks(maxAge, r.ages, m, hist, Arrival(now, RawDelay(f, now)));
    hide AgeStep, RefStep, Tracks, Admit;
  }

  lemma {:induction false} AfterTracks(maxAge: int, h: seq<Heard>)
    ensures Tracks(After(maxAge, h).ages, MarksOf(maxAge, Delays(h)), Delays(h))
  {
    if h != [] {
      hide Tracks, RefStep, AcceptFrame, RawDelay;
      var n := |h| - 1;
      var init, x := h[..n], h[n];
      AfterTracks(maxAge, init);
      assert init + [x] == h;
      DelaysGrow(init, x);
      assert Delays(h)[..n] == Delays(init);
      AcceptTracks(maxAge, After(maxAge, init), MarksOf(maxAge, Delays(init)), Delays(init), x.f, x.now);
    }
  }

  /** x took more than maxAge longer than y: so much more time lies between the arrivals than between
      the sends. */
  predicate TookLonger(maxAge: int, x: Heard, y: Heard) {
    (x.now - y.now) - 1_000_000 * (x.f.timestampMS - y.f.timestampMS) > maxAge
  }

  ghost predicate TookLongerThanSome(maxAge: int, h: seq<Heard>, k: nat, x: Heard) {
    exists i :: k <= i < |h| && TookLonger(maxAge, x, h[i])
  }

  lemma LateMeansLonger(maxAge: int, h: seq<Heard>, k: nat, x: Heard)
    requires maxAge >= 0 && k <= |h|
    ensures RawDelay(x.f, x.now) - LeastRaw(Delays(h + [x]), k) > maxAge <==> TookLongerThanSome(maxAge, h, k, x)
  {
    var all := h + [x];
    LeastRawIsLeast(Delays(all), k);
    if TookLongerThanSome(maxAge, h, k, x) {
      var i :| k <= i < |h| && TookLonger(maxAge, x, h[i]);
      assert LeastRaw(Delays(all), k) <= Delays(all)[i].raw;
      assert all[i] == h[i];
    } else {
      var i :| k <= i < |all| && LeastRaw(Delays(all), k) == Delays(all)[i].raw;
      assert i < |h| ==> all[i] == h[i] && !TookLonger(maxAge, x, h[i]);
    }
  }

  /** The windows by which the next frame is judged. */
  function Windows(maxAge: int, h: seq<Heard>, x: Heard): (m: Marks)
    ensures m.prev <= |h| && (m.late.Some? ==> m.late.value < |h|)
  {
    Roll(MarksOf(maxAge, Delays(h)), Delays(h + [x]))
  }

  /** x took more than maxAge longer than some frame since the previous window began, and less than
      REBASELINE_AFTER has passed since the first refusal of the present block. */
  ghost predicate TooLate(maxAge: int, h: seq<Heard>, x: Heard) {
    var m := Windows(maxAge, h, x);
    && TookLongerThanSome(maxAge, h, m.prev, x)
    && (m.late.Some? ==> x.now - h[m.late.value].now < REBASELINE_AFTER)
  }

  lemma RefusedExactlyWhen(maxAge: int, h: seq<Heard>, x: Heard)
    requires maxAge >= 0
    ensures RefStep(maxAge, MarksOf(maxAge, Delays(h)), Delays(h + [x])).refused <==> TooLate(maxAge, h, x)
  {
    LateMeansLonger(maxAge, h, Windows(maxAge, h, x).prev, x);
    hide LeastRaw, TookLongerThanSome, MarksOf, Roll;
  }

  lemma VerdictIsLate(maxAge: int, r: ReceiverState, f: Frame, now: int)
    ensures AcceptFrame(maxAge, r, f, now).verdict == TtlExceeded <==>
              AgeStep(maxAge, r.ages, now, RawDelay(f, now)).refused
  {
    hide AgeStep;
  }

  /** Main result: over every run of frames, a frame is refused for its age exactly when it is too
      late, by the times of all the frames before. */
  lemma TooLateExactlyWhen(maxAge: int, h: seq<Heard>, x: Heard)
    requires maxAge >= 0
    ensures AcceptFrame(maxAge, After(maxAge, h), x.f, x.now).verdict == TtlExceeded <==> TooLate(maxAge, h, x)
  {
    hide *;
    var a := Arrival(x.now, RawDelay(x.f, x.now));
    AfterTracks(maxAge, h);
    DelaysGrow(h, x);
    AgeStepTracks(maxAge, After(maxAge, h).ages, MarksOf(maxAge, Delays(h)), Delays(h), a);
    VerdictIsLate(maxAge, After(maxAge, h), x.f, x.now);
    RefusedExactlyWhen(maxAge, h, x);
  }

  lemma QuotientAndRest(n: nat, q: nat, r: nat)
    requires n == 64 * q + r && r < 64
    ensures n % 64 == r
  {
  }

  lemma SameBit(n: nat)
    ensures n % 1024 % 64 == n % 64
  {
    var q, r := n / 1024, n % 1024;
    assert n == 64 * (16 * q + r / 64) + r % 64;
    QuotientAndRest(n, 16 * q + r / 64, r % 64);
  }

  lemma SamePlace(i: nat, j: nat)
    ensures i == j <==> i / 64 == j / 64 && i % 64 == j % 64
  {
  }

  /** Where the bit of a slot is. */
  lemma SlotPlace(i: nat, sn: U32)
    requires i < 1024
    ensures i == Slot(sn) <==> i / 64 == sn % 1024 / 64 && i % 64 == sn % 64
  {
    SameBit(sn);
    SamePlace(i, Slot(sn));
  }

  class Receiver {
    const maxAge: int
    var haveTop: bool
    var top: U32
    const seen: array<Word>
    var haveOffset: bool
    var prevMinOffset: int
    var curMinOffset: int
    var windowStart: int
    var lateSince: Option<int>

    ghost predicate Valid() {
      seen.Length == 16
    }

    ghost function Ages(): Ages
      reads this
    {
      AgeFilter.Ages(haveOffset, prevMinOffset, curMinOffset, windowStart, lateSince)
    }

    predicate SlotSeen(s: nat)
      requires Valid() && s < 1024
      reads seen
    {
      Bit(seen[s / 64], s % 64)
    }

    ghost function Seen(): (s: set<nat>)
      requires Valid()
      reads seen
      ensures forall i: nat :: i in s <==> i < 1024 && SlotSeen(i)
    {
      set i: nat | i < 1024 && SlotSeen(i)
    }

    ghost function Window(): Window
      requires Valid()
      reads this, seen
    {
      SeqWindow.Window(haveTop, top, Seen())
    }

    ghost function State(): ReceiverState
      requires Valid()
      reads this, seen
    {
      ReceiverState(Ages(), Window())
    }

    lemma NoneSeen()
      requires Valid() && forall i :: 0 <= i < 16 ==> seen[i] == 0
      ensures Seen() == {}
    {
      forall i: nat | i < 1024
        ensures !SlotSeen(i)
      {
        NoBits(i % 64);
      }
    }

    constructor (maxAge: int)
      ensures Valid() && fresh(seen)
      ensures this.maxAge == maxAge && State() == NEW_RECEIVER
    {
      this.maxAge := maxAge;
      haveTop, top := false, 0;
      seen := new Word[16](_ => 0);
      haveOffset, prevMinOffset, curMinOffset, windowStart, lateSince := false, 0, 0, 0, None;
      new;
      NoneSeen();
    }

    method Mark(sn: U32)
      requires Valid()
      modifies seen
      ensures Seen() == old(Seen()) + {Slot(sn)}
    {
      hide WithBit, WithoutBit, Bit;
      var k, b := sn % 1024 / 64, sn % 64;
      seen[k] := WithBit(seen[k], b);
      forall i: nat | i < 1024
        ensures SlotSeen(i) <==> i == Slot(sn) || old(SlotSeen(i))
      {
        SlotPlace(i, sn);
        SetBit(old(seen[k]), b, i % 64);
      }
      assert Slot(sn) < 1024;
    }

    method Unmark(sn: U32)
      requires Valid()
      modifies seen
      ensures Seen() == old(Seen()) - {Slot(sn)}
    {
      hide WithBit, WithoutBit, Bit;
      var k, b := sn % 1024 / 64, sn % 64;
      seen[k] := WithoutBit(seen[k], b);
      forall i: nat | i < 1024
        ensures SlotSeen(i) <==> i != Slot(sn) && old(SlotSeen(i))
      {
        SlotPlace(i, sn);
        ClearBit(old(seen[k]), b, i % 64);
      }
    }

    method Marked(sn: U32) returns (marked: bool)
      requires Valid()
      ensures marked <==> Slot(sn) in Seen()
    {
      hide Bit;
      SlotPlace(Slot(sn), sn);
      marked := Bit(seen[sn % 1024 / 64], sn % 64);
      assert SlotSeen(Slot(sn)) == marked;
    }

    method ClearAll()
      requires Valid()
      modifies seen
      ensures Seen() == {}
    {
      forall i | 0 <= i < seen.Length {
        seen[i] := 0;
      }
      NoneSeen();
    }

    /** The slots of the numbers that came into the window are freed. */
    method ClearAbove(d: nat)
      requires Valid()
      modifies seen
      ensures Seen() == old(Seen()) - SlotsAbove(top, d)
    {
      hide Wrap, Slot;
      for i := 1 to d + 1
        invariant Seen() == old(Seen()) - SlotsAbove(top, i - 1)
      {
        Unmark(Wrap(top + i));
      }
    }

    method AcceptSeq(f: Frame) returns (verdict: Verdict)
      requires Valid()
      modifies this`haveTop, this`top, seen
      ensures Decision(Window(), verdict) == Admit(old(Window()), f.sn)
    {
      if !haveTop {
        haveTop := true;
        top := f.sn;
        Mark(f.sn);
        return Deliver;
      }
      hide Distance, Slot;
      var d := Distance(f.sn, top);
      if d > 0 {
        if d >= SEQ_WINDOW {
          ClearAll();
        } else {
          ClearAbove(d);
        }
        top := f.sn;
        Mark(f.sn);
        return Deliver;
      }
      if Negate(d) >= SEQ_WINDOW {
        return TooOld;
      }
      var marked := Marked(f.sn);
      if marked {
        return Duplicate;
      }
      Mark(f.sn);
      return Deliver;
    }

    method Accept(f: Frame, now: int) returns (verdict: Verdict)
      requires Valid()
      modifies this, seen
      ensures Received(State(), verdict) == AcceptFrame(maxAge, old(State()), f, now)
    {
      hide Admit, RawDelay, Seen, Slot;
      var raw := RawDelay(f, now);
      if !haveOffset {
        haveOffset := true;
        curMinOffset, prevMinOffset := raw, raw;
        windowStart := now;
      } else if raw < curMinOffset {
        curMinOffset := raw;
      }
      if now - windowStart >= OFFSET_WINDOW {
        prevMinOffset, curMinOffset := curMinOffset, raw;
        windowStart := now;
      }
      assert Ages() == Track(old(Ages()), now, raw);

      var baseline := Min(prevMinOffset, curMinOffset);
      if raw - baseline > maxAge {
        if lateSince.None? {
          lateSince := Some(now);
        }
        if now - lateSince.value < REBASELINE_AFTER {
          return TtlExceeded;
        }
        prevMinOffset, curMinOffset := raw, raw;
        windowStart := now;
      }
      lateSince := None;
      verdict := AcceptSeq(f);
    }
  }
}
