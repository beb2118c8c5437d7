/** CF0::xdurbin (Pitch.cpp): Durbin's recursion from autocorrelations to predictor coefficients. */
module Levinson {
  import opened RealSums

  /** Autocorrelation at lag `d`, which is even in `d`. */
  ghost function R(r: seq<real>, d: int): real {
    var m := if d < 0 then -d else d;
    if m < |r| then r[m] else 0.0
  }

  ghost function Coef(a: seq<real>, j: int): real { if 0 <= j < |a| then a[j] else 0.0 }

  ghost function Term(a: seq<real>, r: seq<real>, l: int): int -> real {
    j => Coef(a, j) * R(r, l - 1 - j)
  }

  /** Left-hand side of the normal equation for lag `l`; the leading coefficient 1 is implicit.  For
      l = 0 this is the energy of the prediction error. */
  ghost function Eqn(a: seq<real>, r: seq<real>, l: int): real {
    R(r, l) + Sum(Term(a, r, l), |a|)
  }

  /** `a` solves all its Toeplitz normal equations. */
  ghost predicate Solves(a: seq<real>, r: seq<real>) {
    forall l :: 1 <= l <= |a| ==> Eqn(a, r, l) == 0.0
  }

  /** One step of the recursion with reflection coefficient `k`. */
  function Next(a: seq<real>, k: real): seq<real> {
    seq(|a|, j requires 0 <= j < |a| => a[j] + k * a[|a| - 1 - j]) + [k]
  }

  ghost function Mirror(a: seq<real>, r: seq<real>, l: int): int -> real {
    j => Coef(a, |a| - 1 - j) * R(r, l - 1 - j)
  }

  lemma MixedAt(a: seq<real>, r: seq<real>, k: real, l: int, j: nat)
    requires j < |a|
    ensures Term(Next(a, k), r, l)(j) == Term(a, r, l)(j) + k * Mirror(a, r, l)(j)
  {
    hide R;
    assert Coef(Next(a, k), j) == a[j] + k * a[|a| - 1 - j];
    Distribute(a[j], a[|a| - 1 - j], k, R(r, l - 1 - j));
  }

  lemma MirrorAt(a: seq<real>, r: seq<real>, l: int, j: nat)
    requires j < |a|
    ensures Mirror(a, r, l)(j) == Term(a, r, |a| + 1 - l)(|a| - 1 - j)
  {
    assert R(r, l - 1 - j) == R(r, |a| + 1 - l - 1 - (|a| - 1 - j));
  }

  lemma LastTerm(a: seq<real>, r: seq<real>, k: real, l: int)
    ensures Term(Next(a, k), r, l)(|a|) == k * R(r, |a| + 1 - l)
  {
    assert R(r, l - 1 - |a|) == R(r, |a| + 1 - l);
  }

  lemma MixedSum(a: seq<real>, r: seq<real>, k: real, l: int)
    ensures Sum(Term(Next(a, k), r, l), |a|) == Sum(Term(a, r, l), |a|) + k * Sum(Term(a, r, |a| + 1 - l), |a|)
  {
    hide Sum, Term, Mirror, R, Coef, Next;
    var m := |a|;
    var plain, mixed, other, mirror := Term(a, r, l), Term(Next(a, k), r, l), Term(a, r, m + 1 - l), Mirror(a, r, l);
    forall j | 0 <= j < m ensures mixed(j) == plain(j) + k * mirror(j) { MixedAt(a, r, k, l, j); }
    SumLinear(plain, mirror, mixed, k, m);
    forall j | 0 <= j < m ensures mirror(j) == other(m - 1 - j) { MirrorAt(a, r, l, j); }
    SumReverse(other, mirror, m);
  }

  /** The step mixes each equation with its mirror image. */
  lemma NextEqn(a: seq<real>, r: seq<real>, k: real, l: int)
    ensures Eqn(Next(a, k), r, l) == Eqn(a, r, l) + k * Eqn(a, r, |a| + 1 - l)
  {
    hide Sum, Term, R, Coef, Next;
    NextLength(a, k);
    MixedSum(a, r, k, l);
    SumLast(Term(Next(a, k), r, l), |a|);
    LastTerm(a, r, k, l);
    Combine(R(r, l), R(r, |a| + 1 - l), Sum(Term(a, r, l), |a|), Sum(Term(a, r, |a| + 1 - l), |a|), k);
  }

  lemma NextLength(a: seq<real>, k: real)
    ensures |Next(a, k)| == |a| + 1
  {
  }

  lemma Combine(x: real, y: real, s: real, t: real, k: real)
    ensures x + (s + k * t + k * y) == (x + s) + k * (y + t)
  {
  }

  lemma Distribute(x: real, y: real, k: real, z: real)
    ensures (x + k * y) * z == x * z + k * (y * z)
  {
  }

  /** With the reflection coefficient that cancels the next equation, one more equation is solved and
      the error shrinks by 1 - k*k. */
  lemma NextSolves(a: seq<real>, r: seq<real>, k: real)
    requires Solves(a, r) && Eqn(a, r, |a| + 1) + k * Eqn(a, r, 0) == 0.0
    ensures Solves(Next(a, k), r)
    ensures Eqn(Next(a, k), r, 0) == Eqn(a, r, 0) * (1.0 - k * k)
  {
    hide Eqn, Next;
    NextLength(a, k);
    forall l | 1 <= l <= |a| + 1 ensures Eqn(Next(a, k), r, l) == 0.0 {
      NextEqn(a, r, k, l);
      if l <= |a| { assert Eqn(a, r, |a| + 1 - l) == 0.0; }
    }
    NextEqn(a, r, k, 0);
    var e, d := Eqn(a, r, 0), Eqn(a, r, |a| + 1);
    assert k * d == k * (-(k * e));
  }

  /** The predictor with the given reflection coefficients, built up one order at a time. */
  ghost function StepUp(ks: seq<real>): (a: seq<real>)
    ensures |a| == |ks|
  {
    if ks == [] then [] else Next(StepUp(ks[..|ks| - 1]), ks[|ks| - 1])
  }

  /** What the reflection coefficients leave of an error `e`. */
  ghost function Shrunk(e: real, ks: seq<real>): real {
    if ks == [] then e else Shrunk(e, ks[..|ks| - 1]) * (1.0 - ks[|ks| - 1] * ks[|ks| - 1])
  }

  lemma StepUpNext(ks: seq<real>, k: real)
    ensures StepUp(ks + [k]) == Next(StepUp(ks), k)
    ensures forall e :: Shrunk(e, ks + [k]) == Shrunk(e, ks) * (1.0 - k * k)
  {
    hide Next;
    assert (ks + [k])[..|ks|] == ks;
  }

  /** xdurbin.  If it never divides by a zero error, the coefficients solve all `p` normal equations
      and the returned error is r0 plus the inner product of coefficients and lags; if it does, a
      solution of lower order already predicts perfectly. */
  method XDurbin(r: seq<real>, k: array<real>, a: array<real>, p: nat) returns (ok: bool, ex: real)
    requires 1 <= p <= 100 && |r| > p && k.Length >= p && a.Length >= p && k != a
    modifies k, a
    ensures ok ==> Solves(a[..p], r) && ex == Eqn(a[..p], r, 0)
    ensures ok ==> a[..p] == StepUp(k[..p]) && ex == Shrunk(r[0], k[..p])
    ensures !ok ==> exists s :: |s| < p && Solves(s, r) && Eqn(s, r, 0) == 0.0
  {
    hide Eqn, Next, Solves, StepUp, Shrunk;
    var e := r[0];
    Order0(r);
    if e == 0.0 { return false, 0.0; }
    k[0] := -r[1] / e;
    a[0] := k[0];
    FirstStep(r, k[0]);
    e := e * (1.0 - k[0] * k[0]);
    Next0(k[0]);
    assert a[..1] == [k[0]] == k[..1];
    StepUp1(k[0], r[0]);
    var b := new real[100];
    for i := 1 to p
      invariant 1 <= i <= p && Solves(a[..i], r) && e == Eqn(a[..i], r, 0)
      invariant a[..i] == StepUp(k[..i]) && e == Shrunk(r[0], k[..i])
    {
      if e == 0.0 { return false, 0.0; }
      ghost var was := a[..i];
      var s := Correlate(r, a, i);
      var ki := (s - r[i + 1]) / e;
      Cancel(Eqn(was, r, i + 1), e, ki);
      NextSolves(was, r, ki);
      StepUpNext(k[..i], ki);
      ghost var ks := k[..i];
      k[i] := ki;
      assert k[..i + 1] == ks + [ki];
      a[i] := ki;
      assert a[..i] == was;
      Reflect(a, b, i);
      e := e * (1.0 - ki * ki);
    }
    return true, e;
  }

  lemma StepUp1(k: real, e: real)
    ensures StepUp([k]) == Next([], k) && Shrunk(e, [k]) == e * (1.0 - k * k)
  {
    assert [k][..0] == [];
  }

  lemma Order0(r: seq<real>)
    requires r != []
    ensures Solves([], r) && Eqn([], r, 0) == r[0]
  {
  }

  lemma Next0(k: real)
    ensures Next([], k) == [k]
  {
  }

  lemma Cancel(d: real, e: real, k: real)
    requires e != 0.0 && k == -d / e
    ensures d + k * e == 0.0
  {
  }

  lemma FirstStep(r: seq<real>, k: real)
    requires |r| > 1 && r[0] != 0.0 && k == -r[1] / r[0]
    ensures Solves(Next([], k), r) && Eqn(Next([], k), r, 0) == r[0] * (1.0 - k * k)
  {
    assert Eqn([], r, 0) == r[0] && Eqn([], r, 1) == r[1];
    NextSolves([], r, k);
  }

  /** The first inner loop: minus the correlation that the next equation leaves over. */
  method Correlate(r: seq<real>, a: array<real>, i: nat) returns (s: real)
    requires i <= a.Length && i + 1 < |r|
    ensures s - r[i + 1] == -Eqn(a[..i], r, i + 1)
  {
    s := 0.0;
    ghost var t := Term(a[..i], r, i + 1);
    for j := 0 to i
      invariant s == -Sum(t, j)
    {
      s := s - a[j] * r[i - j];
    }
  }

  /** The two update loops. */
  method Reflect(a: array<real>, b: array<real>, i: nat)
    requires i < a.Length && i < b.Length && a != b
    modifies a, b
    ensures a[..i + 1] == Next(old(a[..i]), old(a[i]))
  {
    hide Next;
    ghost var was, k := a[..i], a[i];
    ghost var goal := Next(was, k);
    NextLast(was, k);
    for j := 0 to i + 1
      invariant forall m :: 0 <= m < j ==> b[m] == a[m]
      invariant a[..] == old(a[..])
    {
      b[j] := a[j];
    }
    for j := 0 to i
      invariant forall m :: 0 <= m < j ==> a[m] == goal[m]
      invariant forall m :: j <= m < a.Length ==> a[m] == old(a[m])
      invariant forall m :: 0 <= m <= i ==> b[m] == old(a[m])
    {
      NextAt(was, k, j);
      a[j] := a[j] + a[i] * b[i - j - 1];
    }
  }

  lemma NextLast(a: seq<real>, k: real)
    ensures |Next(a, k)| == |a| + 1 && Next(a, k)[|a|] == k
  {
  }

  lemma NextAt(a: seq<real>, k: real, j: nat)
    requires j < |a|
    ensures j < |Next(a, k)| && Next(a, k)[j] == a[j] + k * a[|a| - 1 - j]
  {
  }
}
