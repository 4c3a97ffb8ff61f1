/** What several modules share: optional values, and facts about sizes and products. */
module Basics {

  datatype Option<+T> = None | Some(value: T)

  lemma {:induction false} SubsetSize<T>(a: set<T>, b: set<T>)
    requires a <= b
    ensures |a| <= |b|
    ensures |a| == |b| ==> a == b
  {
    if a != {} {
      var x :| x in a;
      SubsetSize(a - {x}, b - {x});
    }
  }

  lemma {:induction false} Distribute(c: int, a: int, b: int)
    ensures c * (a + b) == c * a + c * b
  {
  }

  lemma {:induction false} MulOrder(x: int, y: int, n: nat)
    requires x <= y
    ensures x * n <= y * n && (x + 1) * n == x * n + n
  {
  }

  lemma {:induction false} QuotientTimes(a: nat, n: nat)
    requires n > 0
    ensures a / n * n <= a < a / n * n + n
  {
    assert a == a / n * n + a % n;
  }
}
