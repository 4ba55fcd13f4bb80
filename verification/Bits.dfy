/** Single bits of a 64-bit word, as Go's `w |= 1 << i`, `w &^= 1 << i` and `w & (1 << i) != 0`. */
module Bits {
  type Word = bv64

  type BitIndex = i: nat | i < 64

  function Mask(i: BitIndex): Word {
    1 << (i as bv6)
  }

  predicate Bit(w: Word, i: BitIndex) {
    w & Mask(i) != 0
  }

  function WithBit(w: Word, i: BitIndex): Word {
    w | Mask(i)
  }

  function WithoutBit(w: Word, i: BitIndex): Word {
    w & !Mask(i)
  }

  lemma IndexBack(i: BitIndex)
    ensures (i as bv6) as nat == i
  {
  }

  lemma ShiftsDiffer(i: bv6, j: bv6)
    requires i != j
    ensures ((1 as bv64) << i) & ((1 as bv64) << j) == 0
  {
  }

  lemma MasksDiffer(i: BitIndex, j: BitIndex)
    requires i != j
    ensures Mask(i) & Mask(j) == 0
  {
    IndexBack(i);
    IndexBack(j);
    ShiftsDiffer(i as bv6, j as bv6);
  }

  lemma ShiftIsNotZero(i: bv6)
    ensures (1 as bv64) << i != 0
  {
  }

  lemma MaskIsNotZero(i: BitIndex)
    ensures Mask(i) != 0
  {
    ShiftIsNotZero(i as bv6);
  }

  lemma OrSelf(w: Word, m: Word)
    ensures (w | m) & m == m
  {
  }

  lemma OrOther(w: Word, m: Word, n: Word)
    requires m & n == 0
    ensures (w | m) & n == w & n
  {
  }

  lemma AndNotSelf(w: Word, m: Word)
    ensures (w & !m) & m == 0
  {
  }

  lemma AndNotOther(w: Word, m: Word, n: Word)
    requires m & n == 0
    ensures (w & !m) & n == w & n
  {
  }

  lemma SetSame(w: Word, i: BitIndex)
    ensures Bit(w | Mask(i), i)
  {
    hide Mask;
    MaskIsNotZero(i);
    OrSelf(w, Mask(i));
  }

  lemma SetOther(w: Word, i: BitIndex, j: BitIndex)
    requires i != j
    ensures (w | Mask(i)) & Mask(j) == w & Mask(j)
  {
    hide Mask;
    MasksDiffer(i, j);
    OrOther(w, Mask(i), Mask(j));
  }

  /** Setting a bit sets it and no other. */
  lemma SetBit(w: Word, i: BitIndex, j: BitIndex)
    ensures Bit(WithBit(w, i), j) <==> i == j || Bit(w, j)
  {
    hide Mask;
    if i == j {
      SetSame(w, i);
    } else {
      SetOther(w, i, j);
    }
  }

  lemma ClearSame(w: Word, i: BitIndex)
    ensures !Bit(w & !Mask(i), i)
  {
    hide Mask;
    AndNotSelf(w, Mask(i));
  }

  lemma ClearOther(w: Word, i: BitIndex, j: BitIndex)
    requires i != j
    ensures (w & !Mask(i)) & Mask(j) == w & Mask(j)
  {
    hide Mask;
    MasksDiffer(i, j);
    AndNotOther(w, Mask(i), Mask(j));
  }

  /** Clearing a bit clears it and no other. */
  lemma ClearBit(w: Word, i: BitIndex, j: BitIndex)
    ensures Bit(WithoutBit(w, i), j) <==> i != j && Bit(w, j)
  {
    hide Mask;
    if i == j {
      ClearSame(w, i);
    } else {
      ClearOther(w, i, j);
    }
  }

  lemma AndZero(m: Word)
    ensures 0 & m == 0
  {
  }

  lemma NoBits(j: BitIndex)
    ensures !Bit(0, j)
  {
    AndZero(Mask(j));
  }
}
