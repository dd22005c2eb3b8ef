/** What several parts of the model share. */
module Common {

  datatype Option<+T> = None | Some(value: T)

  ghost predicate Distinct<T>(xs: seq<T>) {
    forall i, j | 0 <= i < j < |xs| :: xs[i] != xs[j]
  }

  function Bit(b: bool): nat {
    if b then 1 else 0
  }

  /** Sets that differ in one element at most. */
  lemma SetMove<T>(a: set<T>, b: set<T>, x: T)
    requires a - {x} == b - {x}
    ensures |b| == |a| - Bit(x in a) + Bit(x in b)
  {
    if x in a { assert |a - {x}| == |a| - 1; } else { assert a - {x} == a; }
    if x in b { assert |b - {x}| == |b| - 1; } else { assert b - {x} == b; }
  }

  lemma MulLe(a: int, b: int, c: nat)
    ensures a <= b ==> a * c <= b * c
  {
  }

  lemma MulSign(n: nat, d: int)
    ensures (d >= 1 ==> n * d >= n) && (d <= 0 ==> n * d <= 0) && (d <= -1 ==> n * d + n <= 0)
  {
  }
}
