/** Finite sums of reals. */
module RealSums {

  /** f(0) + ... + f(n - 1). */
  ghost function Sum(f: int -> real, n: nat): real {
    if n == 0 then 0.0 else Sum(f, n - 1) + f(n - 1)
  }

  lemma SumLast(f: int -> real, n: nat)
    ensures Sum(f, n + 1) == Sum(f, n) + f(n)
  {
  }

  /** Sums are linear. */
  lemma {:induction false} SumLinear(f: int -> real, g: int -> real, h: int -> real, k: real, n: nat)
    requires forall j :: 0 <= j < n ==> h(j) == f(j) + k * g(j)
    ensures Sum(h, n) == Sum(f, n) + k * Sum(g, n)
  {
    if n > 0 { SumLinear(f, g, h, k, n - 1); }
  }

  /** Taking the first term off. */
  lemma {:induction false} SumFirst(f: int -> real, g: int -> real, n: nat)
    requires forall j :: 0 <= j < n ==> g(j) == f(j + 1)
    ensures Sum(f, n + 1) == f(0) + Sum(g, n)
  {
    if n > 0 { SumFirst(f, g, n - 1); }
  }

  /** Cutting a sum in two. */
  lemma {:induction false} SumSplit(f: int -> real, g: int -> real, a: nat, b: nat)
    requires forall j :: 0 <= j < b ==> g(j) == f(a + j)
    ensures Sum(f, a + b) == Sum(f, a) + Sum(g, b)
  {
    if b > 0 { SumSplit(f, g, a, b - 1); }
  }

  /** The order of the terms does not matter: back to front. */
  lemma {:induction false} SumReverse(f: int -> real, g: int -> real, n: nat)
    requires forall j :: 0 <= j < n ==> g(j) == f(n - 1 - j)
    ensures Sum(g, n) == Sum(f, n)
  {
    if n > 0 {
      var tail := (j: int) => g(j + 1);
      SumFirst(g, tail, n - 1);
      SumReverse(f, tail, n - 1);
    }
  }
}
