/**
 The duplicate window of internal/frame/frame.go: a ring of bits over wrapping 32-bit sequence
 numbers (section 3.4.3 of RFC 4303, section 3.2 of RFC 1982), and the plain set of numbers it
 stands for.
 */
module SeqWindow {
  import opened Framing

  const SEQ_WINDOW: int := 1024
  const TWO32: int := 0x1_0000_0000
  const TWO31: int := 0x8000_0000

  /** `seen` holds the residues modulo SEQ_WINDOW whose bit is set. */
  datatype Window = Window(haveTop: bool, top: U32, seen: set<nat>)

  const EMPTY_WINDOW := Window(false, 0, {})

  datatype Verdict = Deliver | TtlExceeded | TooOld | Duplicate

  // ---------------------------------------------------------------- the code

  function Wrap(n: int): U32 {
    n % TWO32
  }

  /** int32(a - b), with uint32 subtraction. */
  function Distance(a: U32, b: U32): (d: int)
    ensures -TWO31 <= d < TWO31
  {
    var u := Wrap(a - b);
    if u >= TWO31 then u - TWO32 else u
  }

  /** Negation of an int32. */
  function Negate(d: int): int
    requires -TWO31 <= d < TWO31
  {
    if d == -TWO31 then d else -d
  }

  function Slot(sn: U32): nat {
    sn % SEQ_WINDOW
  }

  /** The slots of the d numbers above top. */
  function SlotsAbove(top: U32, d: nat): set<nat> {
    if d == 0 then {} else SlotsAbove(top, d - 1) + {Slot(Wrap(top + d))}
  }

  /** The window after its top moved up by d to sn. */
  function Slide(w: Window, d: nat, sn: U32): Window {
    Window(true, sn, (if d >= SEQ_WINDOW then {} else w.seen - SlotsAbove(w.top, d)) + {Slot(sn)})
  }

  datatype Decision = Decision(w: Window, verdict: Verdict)

  function Admit(w: Window, sn: U32): Decision {
    if !w.haveTop then Decision(Window(true, sn, w.seen + {Slot(sn)}), Deliver)
    else
      var d := Distance(sn, w.top);
      if d > 0 then Decision(Slide(w, d, sn), Deliver)
      else if Negate(d) >= SEQ_WINDOW then Decision(w, TooOld)
      else if Slot(sn) in w.seen then Decision(w, Duplicate)
      else Decision(w.(seen := w.seen + {Slot(sn)}), Deliver)
  }

  // ---------------------------------------------------------------- the reference

  /** True, unbounded sequence numbers: the highest accepted one, and all accepted ones. */
  datatype Numbers = NothingYet | Numbers(top: int, accepted: set<int>)

  /** A number is due when it is above the top, or less than a window below it and not yet
      accepted. */
  predicate Due(r: Numbers, n: int) {
    match r
    case NothingYet => true
    case Numbers(top, accepted) => n > top || (top - n < SEQ_WINDOW && n !in accepted)
  }

  function Take(r: Numbers, n: int): Numbers {
    if !Due(r, n) then r
    else
      match r
      case NothingYet => Numbers(n, {n})
      case Numbers(top, accepted) => Numbers(if n > top then n else top, accepted + {n})
  }

  // ---------------------------------------------------------------- refinement

  /** The window shows the last SEQ_WINDOW numbers up to the top. */
  ghost predicate Shows(w: Window, r: Numbers) {
    match r
    case NothingYet => w == EMPTY_WINDOW
    case Numbers(top, accepted) =>
      && w.haveTop && w.top == Wrap(top)
      && top in accepted && (forall a :: a in accepted ==> a <= top)
      && (forall s :: s in w.seen ==> s < SEQ_WINDOW)
      && (forall n :: top - SEQ_WINDOW < n <= top ==> (n % SEQ_WINDOW in w.seen <==> n in accepted))
  }

  /** Within half the number space of the top: -2^31 <= n - top < 2^31. */
  predicate InHalfRange(r: Numbers, n: int) {
    r.Numbers? ==> -TWO31 <= n - r.top < TWO31
  }

  lemma DistanceIsTrue(n: int, top: int)
    requires -TWO31 <= n - top < TWO31
    ensures Distance(Wrap(n), Wrap(top)) == n - top
  {
  }

  lemma SlotOfWrapped(n: int)
    ensures Slot(Wrap(n)) == n % SEQ_WINDOW
  {
  }

  lemma WrapAdds(n: int, d: nat)
    ensures Wrap(Wrap(n) + d) == Wrap(n + d)
  {
  }

  lemma {:induction false} SlotsAboveAre(top: int, d: nat, s: nat)
    ensures s in SlotsAbove(Wrap(top), d) <==> exists n :: top < n <= top + d && n % SEQ_WINDOW == s
  {
    hide Wrap, Slot;
    if d > 0 {
      SlotsAboveAre(top, d - 1, s);
      SlotOfWrapped(top + d);
      WrapAdds(top, d);
    }
  }

  /** Numbers less than a window apart have different slots. */
  lemma SlotsDiffer(m: int, n: int)
    requires m % SEQ_WINDOW == n % SEQ_WINDOW && 0 - SEQ_WINDOW < m - n < SEQ_WINDOW
    ensures m == n
  {
  }

  lemma MarkShows(w: Window, r: Numbers, n: int)
    requires Shows(w, r) && r.Numbers? && r.top - SEQ_WINDOW < n <= r.top
    ensures Shows(w.(seen := w.seen + {n % SEQ_WINDOW}), r.(accepted := r.accepted + {n}))
  {
    forall m | r.top - SEQ_WINDOW < m <= r.top && m % SEQ_WINDOW == n % SEQ_WINDOW
      ensures m == n
    {
      SlotsDiffer(m, n);
    }
  }

  /** After the top moves up to n, each slot of the new window shows a number of the old window
      that is still in it, or none. */
  lemma SlideShows(w: Window, r: Numbers, n: int, sn: U32)
    requires Shows(w, r) && r.Numbers? && 0 < n - r.top < TWO31 && sn == Wrap(n)
    ensures Shows(Slide(w, n - r.top, sn), Numbers(n, r.accepted + {n}))
  {
    var d: nat := n - r.top;
    var t := Slide(w, d, sn);
    SlotOfWrapped(n);
    forall m | n - SEQ_WINDOW < m <= n
      ensures m % SEQ_WINDOW in t.seen <==> m in r.accepted + {n}
    {
      if m % SEQ_WINDOW == n % SEQ_WINDOW {
        SlotsDiffer(m, n);
      } else if d < SEQ_WINDOW {
        SlotsAboveAre(r.top, d, m % SEQ_WINDOW);
        if m <= r.top {
          forall k | r.top < k <= n && k % SEQ_WINDOW == m % SEQ_WINDOW
            ensures false
          {
            SlotsDiffer(k, m);
          }
        } else {
          assert m % SEQ_WINDOW in SlotsAbove(w.top, d);
        }
      }
    }
  }

  lemma FirstShows(n: int)
    ensures Shows(Window(true, Wrap(n), {n % SEQ_WINDOW}), Numbers(n, {n}))
  {
    forall m | n - SEQ_WINDOW < m <= n && m % SEQ_WINDOW == n % SEQ_WINDOW
      ensures m == n
    {
      SlotsDiffer(m, n);
    }
  }

  /** One accept: the window decides as the plain set does, and goes on showing it. */
  lemma AcceptRefines(w: Window, r: Numbers, n: int)
    requires Shows(w, r) && InHalfRange(r, n)
    ensures Admit(w, Wrap(n)).verdict == Deliver <==> Due(r, n)
    ensures Shows(Admit(w, Wrap(n)).w, Take(r, n))
  {
    SlotOfWrapped(n);
    hide Wrap, Slot, Distance, Slide;
    if r.Numbers? {
      DistanceIsTrue(n, r.top);
      if n > r.top {
        SlideShows(w, r, n, Wrap(n));
      } else if r.top - n < SEQ_WINDOW {
        MarkShows(w, r, n);
      }
    } else {
      FirstShows(n);
      assert {} + {n % SEQ_WINDOW} == {n % SEQ_WINDOW};
    }
  }

  // ---------------------------------------------------------------- runs

  function Decide(w: Window, sns: seq<U32>): seq<Verdict>
    decreases |sns|
  {
    if sns == [] then [] else [Admit(w, sns[0]).verdict] + Decide(Admit(w, sns[0]).w, sns[1..])
  }

  function DueAt(r: Numbers, ns: seq<int>): seq<bool>
    decreases |ns|
  {
    if ns == [] then [] else [Due(r, ns[0])] + DueAt(Take(r, ns[0]), ns[1..])
  }

  /** Every number of the run lies within half the number space of the top it meets. */
  predicate RunInHalfRange(r: Numbers, ns: seq<int>)
    decreases |ns|
  {
    ns == [] || (InHalfRange(r, ns[0]) && RunInHalfRange(Take(r, ns[0]), ns[1..]))
  }

  function WrapAll(ns: seq<int>): seq<U32> {
    seq(|ns|, i requires 0 <= i < |ns| => Wrap(ns[i]))
  }

  /** Main result: over every run within half range, across any number of wraps, the ring of 1024
      bits accepts exactly what the plain set of unbounded numbers does. */
  lemma {:induction false} WindowRefinesSet(w: Window, r: Numbers, ns: seq<int>)
    requires Shows(w, r) && RunInHalfRange(r, ns)
    ensures var verdicts := Decide(w, WrapAll(ns));
            && |verdicts| == |ns| == |DueAt(r, ns)|
            && forall i :: 0 <= i < |ns| ==> (verdicts[i] == Deliver <==> DueAt(r, ns)[i])
    decreases |ns|
  {
    hide Admit, Take, Due, Shows, InHalfRange, Wrap;
    if ns != [] {
      AcceptRefines(w, r, ns[0]);
      assert WrapAll(ns)[1..] == WrapAll(ns[1..]);
      WindowRefinesSet(Admit(w, Wrap(ns[0])).w, Take(r, ns[0]), ns[1..]);
    }
  }

  predicate Accepted(r: Numbers, n: int) {
    r.Numbers? && n in r.accepted && n <= r.top
  }

  lemma {:induction false} DueLength(r: Numbers, ns: seq<int>)
    ensures |DueAt(r, ns)| == |ns|
    decreases |ns|
  {
    if ns != [] {
      DueLength(Take(r, ns[0]), ns[1..]);
    }
  }

  lemma {:induction false} AcceptedStays(r: Numbers, ns: seq<int>, i: nat, n: int)
    requires Accepted(r, n) && i < |ns| && ns[i] == n
    ensures |DueAt(r, ns)| == |ns| && !DueAt(r, ns)[i]
    decreases |ns|
  {
    DueLength(r, ns);
    if i > 0 {
      AcceptedStays(Take(r, ns[0]), ns[1..], i - 1, n);
    }
  }

  /** No number is due twice. */
  lemma {:induction false} NeverDueTwice(r: Numbers, ns: seq<int>, i: nat, j: nat)
    requires i < j < |ns| && ns[i] == ns[j]
    requires |DueAt(r, ns)| == |ns| && DueAt(r, ns)[i]
    ensures !DueAt(r, ns)[j]
    decreases |ns|
  {
    DueLength(Take(r, ns[0]), ns[1..]);
    if i == 0 {
      AcceptedStays(Take(r, ns[0]), ns[1..], j - 1, ns[0]);
    } else {
      NeverDueTwice(Take(r, ns[0]), ns[1..], i - 1, j - 1);
    }
  }

  /** Main result: within half range a receiver delivers each number at most once. */
  lemma AtMostOnce(ns: seq<int>, i: nat, j: nat)
    requires RunInHalfRange(NothingYet, ns) && i < j < |ns| && ns[i] == ns[j]
    ensures var verdicts := Decide(EMPTY_WINDOW, WrapAll(ns));
            |verdicts| == |ns| && !(verdicts[i] == Deliver && verdicts[j] == Deliver)
  {
    WindowRefinesSet(EMPTY_WINDOW, NothingYet, ns);
    DueLength(NothingYet, ns);
    if DueAt(NothingYet, ns)[i] {
      NeverDueTwice(NothingYet, ns, i, j);
    }
  }

  /** The number within half range of top that looks like n on the wire. */
  function StandIn(top: int, n: int): int {
    top + Distance(Wrap(n), Wrap(top))
  }

  lemma StandInLooksAlike(top: int, n: int)
    ensures Wrap(StandIn(top, n)) == Wrap(n)
    ensures -TWO31 <= StandIn(top, n) - top < TWO31
    ensures StandIn(top, n) == n <==> -TWO31 <= n - top < TWO31
  {
  }

  /** Without any assumption on n, the receiver decides about n's stand-in: so a second copy of an
      accepted number is delivered exactly when its stand-in is due, which needs a number outside
      half range. */
  lemma DecidesAboutStandIn(w: Window, r: Numbers, n: int)
    requires Shows(w, r) && r.Numbers?
    ensures Admit(w, Wrap(n)).verdict == Deliver <==> Due(r, StandIn(r.top, n))
    ensures n in r.accepted && Admit(w, Wrap(n)).verdict == Deliver ==> !InHalfRange(r, n)
  {
    StandInLooksAlike(r.top, n);
    AcceptRefines(w, r, StandIn(r.top, n));
  }

  /** Half range is needed: number 0 is delivered again after two steps of almost half the number
      space each. */
  lemma TwiceBeyondHalfRange()
    ensures var first := Admit(EMPTY_WINDOW, 0);
            var second := Admit(first.w, TWO31 - 1);
            var third := Admit(second.w, TWO32 - 2);
            && first.verdict == second.verdict == third.verdict == Deliver
            && Admit(third.w, 0).verdict == Deliver
  {
  }
}
