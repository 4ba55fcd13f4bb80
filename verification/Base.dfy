/** Types and finite sums shared by every module. */
module Base {
  datatype Option<+T> = None | Some(value: T)

  type Byte = b: int | 0 <= b < 256

  type Bytes = seq<Byte>

  type Port = p: nat | p < 0x1_0000

  /** An IPv4 address. */
  datatype Address = Address(b0: Byte, b1: Byte, b2: Byte, b3: Byte)

  function Min(a: int, b: int): (m: int)
    ensures m <= a && m <= b && (m == a || m == b)
  {
    if a < b then a else b
  }

  /** No element occurs twice. */
  predicate Distinct<T(==)>(l: seq<T>) {
    forall i, j :: 0 <= i < j < |l| ==> l[i] != l[j]
  }

  lemma Associates<T>(a: seq<T>, b: seq<T>, c: seq<T>)
    ensures (a + b) + c == a + (b + c)
  {
  }

  /** Sum of `w` over the indices below n. */
  function Sum(w: nat -> int, n: nat): int {
    if n == 0 then 0 else Sum(w, n - 1) + w(n - 1)
  }

  /** Two summands that agree except at c: their sums differ by what changed at c. */
  lemma {:induction false} SumChange(w1: nat -> int, w2: nat -> int, c: nat, n: nat)
    requires forall i: nat :: i < n && i != c ==> w1(i) == w2(i)
    ensures Sum(w2, n) - Sum(w1, n) == if c < n then w2(c) - w1(c) else 0
  {
    if n == 0 {
    } else {
      SumChange(w1, w2, c, n - 1);
    }
  }

  lemma {:induction false} SumBounds(w: nat -> int, n: nat, hi: int)
    requires forall i: nat :: i < n ==> 0 <= w(i) <= hi
    ensures 0 <= Sum(w, n) <= n * hi
  {
    if n == 0 {
    } else {
      SumBounds(w, n - 1, hi);
      assert n * hi == (n - 1) * hi + hi;
    }
  }

  lemma {:induction false} SumNonNegative(w: nat -> int, n: nat)
    requires forall i: nat :: i < n ==> 0 <= w(i)
    ensures 0 <= Sum(w, n)
  {
    if n == 0 {
    } else {
      SumNonNegative(w, n - 1);
    }
  }

  lemma {:induction false} SumEqual(w1: nat -> int, w2: nat -> int, n: nat)
    requires forall i: nat :: i < n ==> w1(i) == w2(i)
    ensures Sum(w1, n) == Sum(w2, n)
  {
    if n == 0 {
    } else {
      SumEqual(w1, w2, n - 1);
    }
  }

  lemma OneLess(n: nat, hi: int)
    requires n > 0
    ensures n * hi == (n - 1) * hi + hi
  {
  }

  /** A sum of which only the indices in l count. */
  lemma {:induction false} SumOfFew(w: nat -> int, n: nat, l: seq<nat>, hi: int)
    requires hi >= 0 && forall i: nat :: i < n ==> w(i) <= if i in l then hi else 0
    ensures Sum(w, n) <= |l| * hi
    decreases n
  {
    if n > 0 {
      if n - 1 in l {
        var k :| 0 <= k < |l| && l[k] == n - 1;
        var rest := l[..k] + l[k + 1..];
        forall i: nat | i < n - 1 && i in l
          ensures i in rest
        {
          var j :| 0 <= j < |l| && l[j] == i;
          assert if j < k then rest[j] == i else rest[j - 1] == i;
        }
        SumOfFew(w, n - 1, rest, hi);
        OneLess(|l|, hi);
      } else {
        SumOfFew(w, n - 1, l, hi);
      }
    }
  }
}
