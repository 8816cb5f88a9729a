/** Python's `round()` applied to a quotient of integers, and the lesson
    progress percentage built on it. */
module Rounding {

  /** `round(n / d)` for a positive divisor: the integer nearest to the
      exact quotient, halves going to the even neighbour. */
  function RoundPos(n: int, d: int): int
    requires d > 0
  {
    var q := n / d;
    var m := n % d;
    if 2 * m > d then q + 1
    else if 2 * m < d then q
    else if q % 2 == 0 then q
    else q + 1
  }

  /** `round(n / d)` for any non-zero divisor. */
  function RoundDiv(n: int, d: int): int
    requires d != 0
  {
    if d < 0 then RoundPos(-n, -d) else RoundPos(n, d)
  }

  lemma Expand(d: int, q: int, k: int)
    ensures d * (2 * (q + k) - 1) == 2 * (d * q) + (2 * k - 1) * d
    ensures d * (2 * (q + k) + 1) == 2 * (d * q) + (2 * k + 1) * d
  {
  }

  /** `RoundPos` picks a nearest integer to n / d (|n/d - r| <= 1/2), and on
      an exact half it picks the even one. */
  lemma RoundPosNearest(n: int, d: int)
    requires d > 0
    ensures var r := RoundPos(n, d);
      && d * (2 * r - 1) <= 2 * n <= d * (2 * r + 1)
      && ((2 * n == d * (2 * r - 1) || 2 * n == d * (2 * r + 1)) ==> r % 2 == 0)
  {
    var q := n / d;
    var m := n % d;
    var dq := d * q;
    assert n == dq + m;
    var r := RoundPos(n, d);
    var k := r - q;
    assert k == 0 || k == 1;
    Expand(d, q, k);
  }

  lemma MulMono(a: int, b: int, c: int)
    requires a > 0 && b <= c
    ensures a * b <= a * c
  {
  }

  /** Rounding a quotient is monotone in the numerator. */
  lemma RoundPosMonotone(n1: int, n2: int, d: int)
    requires d > 0 && n1 <= n2
    ensures RoundPos(n1, d) <= RoundPos(n2, d)
  {
    var r1 := RoundPos(n1, d);
    var r2 := RoundPos(n2, d);
    RoundPosNearest(n1, d);
    RoundPosNearest(n2, d);
    if n1 == n2 {
    } else if r1 > r2 {
      MulMono(d, 2 * r2 + 1, 2 * r1 - 1);
      assert false;
    }
  }

  /** Percentage of completed lessons: 0 for an empty plan, otherwise
      `round((completed / total) * 100)`. */
  function Progress(completed: nat, total: nat): int {
    if total == 0 then 0 else RoundPos(100 * completed, total)
  }

  /** Progress is a percentage: it lies in 0..100 whenever the completed
      lessons are among the counted ones. */
  lemma ProgressBounds(completed: nat, total: nat)
    requires completed <= total
    ensures 0 <= Progress(completed, total) <= 100
  {
    if total > 0 {
      RoundPosMonotone(0, 100 * completed, total);
      RoundPosMonotone(100 * completed, 100 * total, total);
      assert RoundPos(0, total) == 0;
      RoundPosExact(100, total);
    }
  }

  /** The edge values: nothing completed gives 0, everything completed 100. */
  lemma ProgressEdges(total: nat)
    ensures Progress(0, total) == 0
    ensures total > 0 ==> Progress(total, total) == 100
  {
    if total > 0 {
      RoundPosExact(100, total);
    }
  }

  /** An exact quotient rounds to itself. */
  lemma RoundPosExact(k: int, d: int)
    requires d > 0
    ensures RoundPos(k * d, d) == k
  {
    var r := RoundPos(k * d, d);
    RoundPosNearest(k * d, d);
    if r > k {
      MulMono(d, 2 * k + 1, 2 * r - 1);
      assert false;
    } else if r < k {
      MulMono(d, 2 * r + 1, 2 * k - 1);
      assert false;
    }
  }

  /** Completing more lessons never lowers the percentage. */
  lemma ProgressMonotone(c1: nat, c2: nat, total: nat)
    requires c1 <= c2
    ensures Progress(c1, total) <= Progress(c2, total)
  {
    if total > 0 {
      RoundPosMonotone(100 * c1, 100 * c2, total);
    }
  }

  /** The displayed percentage rounds: 100 does not mean every lesson is
      completed, nor 0 that none is. */
  lemma ProgressRoundsAtTheEnds()
    ensures Progress(200, 201) == 100
    ensures Progress(1, 201) == 0
  {
    assert 20000 / 201 == 99 && 20000 % 201 == 101;
    assert 100 / 201 == 0 && 100 % 201 == 100;
  }
}
