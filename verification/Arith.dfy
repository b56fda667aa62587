/**
 Division with remainder, counters that wrap, and sizes of sets, for the address
 and ring arithmetic and the bookkeeping of the other modules.
 */
module Arith {

  lemma {:induction false} Quotient(a: int, q: int, r: int, d: int)
    requires a == q * d + r && 0 <= r < d
    ensures a / d == q && a % d == r
  {
    var x := a / d - q;
    assert x * d == (a / d) * d - q * d;
    assert x >= 1 ==> x * d >= d;
    assert x <= -1 ==> x * d <= -d;
  }

  lemma {:induction false} Associate(a: int, b: int, c: int)
    ensures a * (b * c) == (a * b) * c
  {
  }

  /**
   Taking a counter modulo its width before taking it modulo a ring is harmless exactly if
   the ring divides the width.
   */
  lemma {:induction false} WrapSafe(ring: nat, width: nat)
    requires ring > 0 && width > 0
    ensures (forall x: nat :: x % width % ring == x % ring) <==> width % ring == 0
  {
    if width % ring == 0 {
      forall x: nat ensures x % width % ring == x % ring {
        var q, r := x / width, x % width;
        var k := width / ring;
        assert width == k * ring;
        Associate(q, k, ring);
        assert (q * k + r / ring) * ring == (q * k) * ring + (r / ring) * ring;
        Quotient(x, q * k + r / ring, r % ring, ring);
      }
    } else {
      assert width % width == 0;
      assert width % width % ring == 0;
    }
  }

  /** Two counters less than a turn apart are equal exactly if they are so after wrapping. */
  lemma {:induction false} WrapEqual(w: nat, r: nat, width: nat)
    requires r <= w < r + width
    ensures w % width == r % width <==> w == r
  {
    var q, m := r / width, r % width;
    var d := w - r;
    if m + d < width {
      Quotient(w, q, m + d, width);
    } else {
      assert (q + 1) * width == q * width + width;
      Quotient(w, q + 1, m + d - width, width);
    }
  }

  lemma {:induction false} WrapAdd(x: nat, d: nat, width: nat)
    requires d < width
    ensures (x % width + d) % width == (x + d) % width
  {
    var q, m := x / width, x % width;
    if m + d < width {
      Quotient(x + d, q, m + d, width);
      Quotient(m + d, 0, m + d, width);
    } else {
      assert (q + 1) * width == q * width + width;
      Quotient(x + d, q + 1, m + d - width, width);
      Quotient(m + d, 1, m + d - width, width);
    }
  }

  /** Positions less than a ring apart have different cells. */
  lemma {:induction false} CellsApart(a: nat, b: nat, ring: nat)
    requires a < b < a + ring
    ensures a % ring != b % ring
  {
    WrapEqual(b, a, ring);
  }

  lemma {:induction false} SubsetSize(a: set<nat>, b: set<nat>)
    requires a <= b
    ensures |a| <= |b|
  {
    assert b == a + (b - a);
  }

  /** n numbers from a on */
  function Interval(a: nat, n: nat): (s: set<nat>)
    ensures forall x: nat :: x in s <==> a <= x < a + n
  {
    if n == 0 then {} else Interval(a, n - 1) + {a + n - 1}
  }

  lemma {:induction false} IntervalSize(a: nat, n: nat)
    ensures |Interval(a, n)| == n
  {
    if n > 0 { IntervalSize(a, n - 1); }
  }
}
