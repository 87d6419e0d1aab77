/** Small shared vocabulary: optional values, order on integers, powers. */
module Prelude {

  datatype Option<+T> = None | Some(value: T)

  function Min(a: int, b: int): (m: int)
    ensures m <= a && m <= b && m in {a, b}
  {
    if a <= b then a else b
  }

  function Max(a: int, b: int): (m: int)
    ensures m >= a && m >= b && m in {a, b}
  {
    if a <= b then b else a
  }

  function NatOf(n: int): nat {
    if n < 0 then 0 else n
  }

  /** One second in nanoseconds. */
  const SECOND := 1_000_000_000

  function Pow(b: nat, n: nat): nat {
    if n == 0 then 1 else b * Pow(b, n - 1)
  }

  lemma {:induction false} PowMonotone(b: nat, m: nat, n: nat)
    requires b >= 1 && m <= n
    ensures 1 <= Pow(b, m) <= Pow(b, n)
    decreases n
  {
    if n == 0 {
    } else if m == n {
      PowMonotone(b, n - 1, n - 1);
      MulMonotone(b, 1, Pow(b, n - 1));
    } else {
      PowMonotone(b, m, n - 1);
      MulMonotone(Pow(b, n - 1), 1, b);
    }
  }

  lemma MulMonotone(a: nat, x: int, y: int)
    requires x <= y
    ensures a * x <= a * y
  {
    assert 0 <= a * (y - x);
  }

  /** The last element, and everything before it. */
  function Last<T>(s: seq<T>): T
    requires s != []
  {
    s[|s| - 1]
  }

  function Front<T>(s: seq<T>): seq<T>
    requires s != []
  {
    s[..|s| - 1]
  }

  lemma FrontOfAppend<T>(s: seq<T>, x: T)
    ensures s + [x] != [] && Front(s + [x]) == s && Last(s + [x]) == x
  {
  }

  // ---- sums over sets of small numbers -----------------------------------------

  /** The sum of `f` over those of 0 to n-1 that are in a set. */
  function Sum(f: nat -> nat, ids: set<nat>, n: nat): nat {
    if n == 0 then 0 else Sum(f, ids, n - 1) + (if n - 1 in ids then f(n - 1) else 0)
  }

  lemma {:induction false} NothingToSum(f: nat -> nat, n: nat)
    ensures Sum(f, {}, n) == 0
  {
    if n > 0 { NothingToSum(f, n - 1); }
  }

  lemma {:induction false} SumWithOneMore(f: nat -> nat, ids: set<nat>, id: nat, n: nat)
    requires id !in ids
    ensures Sum(f, ids + {id}, n) == Sum(f, ids, n) + (if id < n then f(id) else 0)
  {
    if n > 0 { SumWithOneMore(f, ids, id, n - 1); }
  }

  lemma {:induction false} SumsDifferByDifferences(f: nat -> nat, a: set<nat>, b: set<nat>, n: nat)
    ensures Sum(f, a, n) + Sum(f, b - a, n) == Sum(f, b, n) + Sum(f, a - b, n)
  {
    if n > 0 { SumsDifferByDifferences(f, a, b, n - 1); }
  }
}
