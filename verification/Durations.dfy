/** Arithmetic on durations: whole multiples, kept away from non-linear arithmetic, and the larger of two. */
module Durations {

  function Max(a: real, b: real): real { if a >= b then a else b }

  function Times(n: nat, x: real): real {
    if n == 0 then 0.0 else x + Times(n - 1, x)
  }

  lemma {:induction false} TimesIsProduct(n: nat, x: real)
    ensures Times(n, x) == n as real * x
  {
    if n > 0 {
      TimesIsProduct(n - 1, x);
    }
  }

  lemma {:induction false} TimesAdds(m: nat, n: nat, x: real)
    requires x >= 0.0
    ensures Times(m + n, x) == Times(m, x) + Times(n, x)
    ensures Times(n, x) >= 0.0
    ensures n >= 1 ==> Times(n, x) >= x
    decreases n
  {
    if n > 0 {
      TimesAdds(m, n - 1, x);
    }
  }
}
