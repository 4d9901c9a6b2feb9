/** Facts about products and remainders with a variable modulus, and about sums. */
module Arithmetic {

  /** One multiple less is at least `m` less. */
  lemma MulStep(a: int, b: int, m: nat)
    ensures a < b ==> m * a + m <= m * b
  {
    var d := b - a - 1;
    assert m * b == m * a + m + m * d;
    if d >= 0 {
      assert m * d >= 0;
    }
  }

  lemma MulNext(a: nat, m: nat)
    ensures (a + 1) * m == a * m + m
  {
  }

  /** A remainder is the one remainder there is. */
  lemma ModUnique(x: nat, m: nat, q: nat, r: nat)
    requires r < m && x == m * q + r
    ensures x % m == r
  {
    var q' := x / m;
    assert x == m * q' + x % m;
    MulStep(q', q, m);
    MulStep(q, q', m);
  }

  /** Going `j` samples on, less than one loop, wraps at most once. */
  lemma ModAdvance(a: nat, j: nat, m: nat)
    requires j <= m && m > 0
    ensures (a + j) % m == if a % m + j < m then a % m + j else a % m + j - m
  {
    var q, r := a / m, a % m;
    assert a == m * q + r;
    if r + j < m {
      ModUnique(a + j, m, q, r + j);
    } else {
      assert m * (q + 1) == m * q + m;
      ModUnique(a + j, m, q + 1, r + j - m);
    }
  }

  function Sum(s: seq<nat>): nat {
    if s == [] then 0 else s[0] + Sum(s[1..])
  }

  lemma {:induction false} SumUpdate(s: seq<nat>, i: nat, v: nat)
    requires i < |s|
    ensures Sum(s[i := v]) == Sum(s) - s[i] + v
  {
    if i == 0 {
      assert s[0 := v][1..] == s[1..];
    } else {
      assert s[i := v][1..] == s[1..][i - 1 := v];
      SumUpdate(s[1..], i - 1, v);
    }
  }
}
