/**
 * DDirch (src/modules/bugs/distributions/DDirch.cc): the Dirichlet
 * distribution, extended to zero shape parameters, which stand for
 * structural zeros: where alpha[i] = 0 the value x[i] is 0.
 */
module DDirchs {
  import opened Wrappers
  import opened Numeric
  import opened Distributions
  import Rng

  const Name: string := "ddirch"
  const Alias: string := "ddirich"

  /** The length of the value: the length of alpha. */
  function Length(len: seq<nat>): nat
    requires |len| >= 1
  {
    len[0]
  }

  /** checkParameterLength: alpha must have more than one element. */
  predicate CheckParameterLength(len: seq<nat>)
    requires |len| >= 1
  {
    len[0] > 1
  }

  /** df: one less than the length, in unsigned arithmetic. */
  function Df(len: seq<nat>): (df: nat)
    requires |len| >= 1
    ensures CheckParameterLength(len) ==> df + 1 == Length(len) && df >= 1
    ensures Length(len) == 0 ==> df == UlongMax
  {
    PredUlong(len[0])
  }

  /** isSupportFixed: the support is fixed when alpha is. */
  predicate IsSupportFixed(fixmask: seq<bool>)
    requires |fixmask| >= 1
  {
    fixmask[0]
  }

  /** Valid shape parameters: none negative and at least one positive. */
  predicate ValidAlpha(alpha: seq<real>)
  {
    (forall i :: 0 <= i < |alpha| ==> alpha[i] >= 0.0) && exists i :: 0 <= i < |alpha| && alpha[i] > 0.0
  }

  /** checkParameterValue. */
  method CheckParameterValue(alpha: seq<real>) returns (ok: bool)
    ensures ok == ValidAlpha(alpha)
  {
    var hasNonzero := false;
    var i := 0;
    while i < |alpha|
      invariant i <= |alpha| && forall i' :: 0 <= i' < i ==> alpha[i'] >= 0.0
      invariant hasNonzero <==> exists i' :: 0 <= i' < i && alpha[i'] > 0.0
    {
      if alpha[i] < 0.0 {
        return false;
      }
      if alpha[i] > 0.0 {
        hasNonzero := true;
      }
      i := i + 1;
    }
    return hasNonzero;
  }

  /** A structural zero is violated: alpha[i] = 0 but x[i] > 0. */
  predicate ZeroViolated(alpha: seq<real>, x: seq<real>)
    requires |alpha| == |x|
  {
    exists i :: 0 <= i < |alpha| && alpha[i] == 0.0 && x[i] > 0.0
  }

  /** The unnormalised log density: sum of (alpha[i] - 1) log x[i] over the non-zero alpha, left to right. */
  function Kernel(alpha: seq<real>, x: seq<real>, log: real -> Ext): Ext
    requires |alpha| == |x|
  {
    if |alpha| == 0 then Fin(0.0)
    else
      var n := |alpha| - 1;
      KernelStep(Kernel(alpha[..n], x[..n], log), alpha[n], x[n], log)
  }

  /** loglik += (a - 1) log(v), skipped at a structural zero. */
  function KernelStep(k: Ext, a: real, v: real, log: real -> Ext): Ext
  {
    if a == 0.0 then k else Add(k, Scale(a - 1.0, log(v)))
  }

  /** l minus lgamma(alpha[i]) for each non-zero alpha, left to right. */
  function SubLgammas(l: Ext, alpha: seq<real>, lgamma: real -> Ext): Ext
  {
    if |alpha| == 0 then l
    else
      var n := |alpha| - 1;
      var k := SubLgammas(l, alpha[..n], lgamma);
      if alpha[n] != 0.0 then Sub(k, lgamma(alpha[n])) else k
  }

  /**
   * logDensity: -inf when a structural zero is violated; otherwise the
   * kernel, plus the normalising constant unless only the prior part
   * is wanted.
   */
  function LogDensitySpec(alpha: seq<real>, x: seq<real>, pdf: PDFType, log: real -> Ext, lgamma: real -> Ext): (l: Ext)
    requires |alpha| == |x|
    ensures ZeroViolated(alpha, x) ==> l == NegInf
  {
    if ZeroViolated(alpha, x) then NegInf
    else
      var k := Kernel(alpha, x, log);
      if pdf != PDFPrior then Add(SubLgammas(k, alpha, lgamma), lgamma(Sum(alpha))) else k
  }

  method LogDensity(x: seq<real>, alpha: seq<real>, pdf: PDFType, log: real -> Ext, lgamma: real -> Ext) returns (l: Ext)
    requires |alpha| == |x|
    ensures l == LogDensitySpec(alpha, x, pdf, log, lgamma)
  {
    var ok;
    ok, l := KernelLoop(x, alpha, log);
    if !ok {
      return NegInf;
    }
    if pdf != PDFPrior {
      var k := l;
      var alphasum;
      l, alphasum := SubtractLgammas(k, alpha, lgamma);
      l := Add(l, lgamma(alphasum));
    }
  }

  /** The first loop of logDensity: false at the first violated structural zero, else the kernel. */
  method KernelLoop(x: seq<real>, alpha: seq<real>, log: real -> Ext) returns (ok: bool, l: Ext)
    requires |alpha| == |x|
    ensures ok <==> !ZeroViolated(alpha, x)
    ensures ok ==> l == Kernel(alpha, x, log)
  {
    l := Fin(0.0);
    var i := 0;
    while i < |x|
      invariant i <= |x| && l == Kernel(alpha[..i], x[..i], log)
      invariant !ZeroViolated(alpha[..i], x[..i])
    {
      PrefixStep(alpha, x, i, log);
      if alpha[i] == 0.0 {
        if x[i] > 0.0 {
          return false, l;
        }
      } else {
        l := Add(l, Scale(alpha[i] - 1.0, log(x[i])));
      }
      i := i + 1;
    }
    assert alpha[..|x|] == alpha && x[..|x|] == x;
    return true, l;
  }

  /** One more element: the kernel takes one more step and a violation may appear. */
  lemma PrefixStep(alpha: seq<real>, x: seq<real>, i: nat, log: real -> Ext)
    requires |alpha| == |x| && i < |alpha|
    ensures Kernel(alpha[..i + 1], x[..i + 1], log) == KernelStep(Kernel(alpha[..i], x[..i], log), alpha[i], x[i], log)
    ensures ZeroViolated(alpha[..i + 1], x[..i + 1])
        <==> ZeroViolated(alpha[..i], x[..i]) || (alpha[i] == 0.0 && x[i] > 0.0)
    ensures alpha[i] == 0.0 && x[i] > 0.0 ==> ZeroViolated(alpha, x)
  {
    assert alpha[..i + 1][..i] == alpha[..i] && x[..i + 1][..i] == x[..i];
    if ZeroViolated(alpha[..i + 1], x[..i + 1]) {
      var k :| 0 <= k < i + 1 && alpha[..i + 1][k] == 0.0 && x[..i + 1][k] > 0.0;
      if k < i {
        assert alpha[..i][k] == 0.0 && x[..i][k] > 0.0;
      }
    }
    if ZeroViolated(alpha[..i], x[..i]) {
      var k :| 0 <= k < i && alpha[..i][k] == 0.0 && x[..i][k] > 0.0;
      assert alpha[..i + 1][k] == 0.0 && x[..i + 1][k] > 0.0;
    }
    if alpha[i] == 0.0 && x[i] > 0.0 {
      assert alpha[..i + 1][i] == 0.0 && x[..i + 1][i] > 0.0;
    }
  }

  /** The second loop of logDensity: subtract each non-zero lgamma(alpha[i]) and add up alpha. */
  method SubtractLgammas(k: Ext, alpha: seq<real>, lgamma: real -> Ext) returns (l: Ext, alphasum: real)
    ensures l == SubLgammas(k, alpha, lgamma) && alphasum == Sum(alpha)
  {
    l := k;
    alphasum := 0.0;
    var i := 0;
    while i < |alpha|
      invariant i <= |alpha| && l == SubLgammas(k, alpha[..i], lgamma) && alphasum == Sum(alpha[..i])
    {
      assert alpha[..i + 1][..i] == alpha[..i];
      SumPrefixStep(alpha, i);
      if alpha[i] != 0.0 {
        l := Sub(l, lgamma(alpha[i]));
        alphasum := alphasum + alpha[i];
      }
      i := i + 1;
    }
    assert alpha[..|alpha|] == alpha;
  }

  lemma {:induction false} KernelRemove(alpha: seq<real>, x: seq<real>, log: real -> Ext, i: nat)
    requires |alpha| == |x| && i < |alpha| && alpha[i] == 0.0
    ensures Kernel(Remove(alpha, i), Remove(x, i), log) == Kernel(alpha, x, log)
  {
    var n := |alpha| - 1;
    if i == n {
      assert Remove(alpha, i) == alpha[..n] && Remove(x, i) == x[..n];
    } else {
      KernelRemove(alpha[..n], x[..n], log, i);
      var ra, rx := Remove(alpha, i), Remove(x, i);
      assert ra[..n - 1] == Remove(alpha[..n], i) && rx[..n - 1] == Remove(x[..n], i);
      assert Kernel(ra, rx, log) == KernelStep(Kernel(ra[..n - 1], rx[..n - 1], log), alpha[n], x[n], log);
    }
  }

  lemma {:induction false} SubLgammasRemove(l: Ext, alpha: seq<real>, lgamma: real -> Ext, i: nat)
    requires i < |alpha| && alpha[i] == 0.0
    ensures SubLgammas(l, Remove(alpha, i), lgamma) == SubLgammas(l, alpha, lgamma)
  {
    var n := |alpha| - 1;
    if i == n {
      assert Remove(alpha, i) == alpha[..n];
    } else {
      SubLgammasRemove(l, alpha[..n], lgamma, i);
      assert Remove(alpha, i)[..n - 1] == Remove(alpha[..n], i);
    }
  }

  lemma SumRemoveZero(alpha: seq<real>, i: nat)
    requires i < |alpha| && alpha[i] == 0.0
    ensures Sum(Remove(alpha, i)) == Sum(alpha)
  {
    assert alpha == alpha[..i] + [alpha[i]] + alpha[i + 1..];
    SumAppend(alpha[..i] + [alpha[i]], alpha[i + 1..]);
    SumAppend(alpha[..i], [alpha[i]]);
    SumAppend(alpha[..i], alpha[i + 1..]);
  }

  /**
   * A structural zero that holds (x[i] is not positive where
   * alpha[i] = 0) contributes nothing: dropping the element leaves
   * the log density unchanged.
   */
  lemma StructuralZeroIgnored(alpha: seq<real>, x: seq<real>, pdf: PDFType, log: real -> Ext, lgamma: real -> Ext, i: nat)
    requires |alpha| == |x| && i < |alpha| && alpha[i] == 0.0 && x[i] <= 0.0
    ensures LogDensitySpec(Remove(alpha, i), Remove(x, i), pdf, log, lgamma) == LogDensitySpec(alpha, x, pdf, log, lgamma)
  {
    KernelRemove(alpha, x, log, i);
    SubLgammasRemove(Kernel(alpha, x, log), alpha, lgamma, i);
    SumRemoveZero(alpha, i);
    if ZeroViolated(alpha, x) {
      var k :| 0 <= k < |alpha| && alpha[k] == 0.0 && x[k] > 0.0;
      var k' := if k < i then k else k - 1;
      assert Remove(alpha, i)[k'] == alpha[k] && Remove(x, i)[k'] == x[k];
    }
    if ZeroViolated(Remove(alpha, i), Remove(x, i)) {
      var k :| 0 <= k < |alpha| - 1 && Remove(alpha, i)[k] == 0.0 && Remove(x, i)[k] > 0.0;
      var k' := if k < i then k else k + 1;
      assert alpha[k'] == 0.0 && x[k'] > 0.0;
    }
  }

  /** The gamma(alpha[i], 1) draws from element i on, 0 (and no draw) where alpha[i] = 0. */
  function GammaDraws(alpha: seq<real>, i: nat, rng: Rng.RNG): (d: Rng.Draws)
    requires i <= |alpha|
    ensures |d.x| == |alpha| - i
    decreases |alpha| - i
  {
    if i == |alpha| then Rng.Draws([], rng)
    else if alpha[i] == 0.0 then
      var d := GammaDraws(alpha, i + 1, rng);
      Rng.Draws([0.0] + d.x, d.rng)
    else
      var d := GammaDraws(alpha, i + 1, rng.Next());
      Rng.Draws([rng.Gamma(alpha[i])] + d.x, d.rng)
  }

  /** With valid shapes every draw is non-negative, positive exactly where alpha is. */
  lemma {:induction false} GammaDrawsSigns(alpha: seq<real>, i: nat, rng: Rng.RNG)
    requires i <= |alpha| && rng.Valid() && forall k :: 0 <= k < |alpha| ==> alpha[k] >= 0.0
    ensures forall k :: 0 <= k < |alpha| - i ==>
      GammaDraws(alpha, i, rng).x[k] >= 0.0 && (GammaDraws(alpha, i, rng).x[k] > 0.0 <==> alpha[i + k] > 0.0)
    decreases |alpha| - i
  {
    if i < |alpha| {
      if alpha[i] == 0.0 {
        GammaDrawsSigns(alpha, i + 1, rng);
      } else {
        GammaDrawsSigns(alpha, i + 1, rng.Next());
      }
    }
  }

  /** x divided through by its sum. */
  function Normalised(x: seq<real>): (y: seq<real>)
    requires Sum(x) != 0.0
    ensures |y| == |x|
  {
    seq(|x|, j requires 0 <= j < |x| => x[j] / Sum(x))
  }

  lemma {:induction false} SumDivided(x: seq<real>, c: real)
    requires c != 0.0
    ensures Sum(seq(|x|, j requires 0 <= j < |x| => x[j] / c)) == Sum(x) / c
  {
    if |x| > 0 {
      var n := |x| - 1;
      SumDivided(x[..n], c);
      assert seq(|x|, j requires 0 <= j < |x| => x[j] / c)[..n] == seq(n, j requires 0 <= j < n => x[..n][j] / c);
    }
  }

  /** A normalised vector sums to one. */
  lemma NormalisedSumsToOne(x: seq<real>)
    requires Sum(x) != 0.0
    ensures Sum(Normalised(x)) == 1.0
  {
    var c := Sum(x);
    SumDivided(x, c);
    assert Normalised(x) == seq(|x|, j requires 0 <= j < |x| => x[j] / c);
    assert c / c == 1.0;
  }

  /** The draws randomSample normalises have a positive sum when alpha is valid. */
  lemma GammaSumPositive(alpha: seq<real>, rng: Rng.RNG)
    requires ValidAlpha(alpha) && rng.Valid()
    ensures Sum(GammaDraws(alpha, 0, rng).x) > 0.0
  {
    GammaDrawsSigns(alpha, 0, rng);
    var k :| 0 <= k < |alpha| && alpha[k] > 0.0;
    SumPositive(GammaDraws(alpha, 0, rng).x, k);
  }

  /** One draw of randomSample's first loop against GammaDraws. */
  method GammaStep(alpha: seq<real>, i: nat, rng: Rng.RNG) returns (v: real, rng': Rng.RNG)
    requires i < |alpha|
    ensures GammaDraws(alpha, i, rng) == Rng.Draws([v] + GammaDraws(alpha, i + 1, rng').x, GammaDraws(alpha, i + 1, rng').rng)
  {
    if alpha[i] == 0.0 {
      v, rng' := 0.0, rng;
    } else {
      v := rng.Gamma(alpha[i]);
      rng' := rng.Next();
    }
  }

  /**
   * randomSample: independent gamma draws, zero for a structural zero,
   * divided by their sum. With valid shapes the result is a point of
   * the simplex (NormalisedSumsToOne, SampleInSupport).
   */
  method RandomSample(x: array<real>, alpha: seq<real>, rng: Rng.RNG) returns (rng': Rng.RNG)
    requires x.Length == |alpha| && ValidAlpha(alpha) && rng.Valid()
    modifies x
    ensures Sum(GammaDraws(alpha, 0, rng).x) > 0.0
    ensures x[..] == Normalised(GammaDraws(alpha, 0, rng).x) && rng' == GammaDraws(alpha, 0, rng).rng
  {
    GammaSumPositive(alpha, rng);
    var sumx;
    sumx, rng' := FillGammas(x, alpha, rng);
    DivideBy(x, sumx);
  }

  /** randomSample's first loop: the draws go into x and their sum into sumx. */
  method FillGammas(x: array<real>, alpha: seq<real>, rng: Rng.RNG) returns (sumx: real, rng': Rng.RNG)
    requires x.Length == |alpha|
    modifies x
    ensures x[..] == GammaDraws(alpha, 0, rng).x && sumx == Sum(x[..]) && rng' == GammaDraws(alpha, 0, rng).rng
  {
    ghost var g := GammaDraws(alpha, 0, rng);
    sumx := 0.0;
    rng' := rng;
    var i := 0;
    while i < x.Length
      invariant i <= x.Length
      invariant forall k :: 0 <= k < i ==> x[k] == g.x[k]
      invariant GammaDraws(alpha, i, rng').x == g.x[i..] && GammaDraws(alpha, i, rng').rng == g.rng
      invariant sumx == Sum(g.x[..i])
    {
      var v;
      v, rng' := GammaStep(alpha, i, rng');
      assert g.x[i..] == [v] + GammaDraws(alpha, i + 1, rng').x;
      assert g.x[i + 1..] == g.x[i..][1..];
      x[i] := v;
      SumPrefixStep(g.x, i);
      sumx := sumx + v;
      i := i + 1;
    }
    assert x[..] == g.x && g.x[..i] == g.x;
  }

  /** randomSample's second loop: x[j] /= sumx. */
  method DivideBy(x: array<real>, c: real)
    requires c != 0.0 && c == Sum(x[..])
    modifies x
    ensures x[..] == Normalised(old(x[..]))
  {
    ghost var x0 := x[..];
    var j := 0;
    while j < x.Length
      invariant j <= x.Length
      invariant forall k :: 0 <= k < j ==> x[k] == x0[k] / c
      invariant forall k :: j <= k < x.Length ==> x[k] == x0[k]
    {
      x[j] := x[j] / c;
      j := j + 1;
    }
  }

  /** The upper limit of the support of element i: 0 at a structural zero, +inf elsewhere. */
  function SupportUpper(a: real): Ext
  {
    if a == 0.0 then Fin(0.0) else PosInf
  }

  /** support: [0, 0] at a structural zero and [0, +inf) elsewhere. */
  method Support(lower: array<Ext>, upper: array<Ext>, alpha: seq<real>)
    requires lower.Length == |alpha| && upper.Length == |alpha| && lower != upper
    modifies lower, upper
    ensures forall i :: 0 <= i < |alpha| ==> lower[i] == Fin(0.0) && upper[i] == SupportUpper(alpha[i])
  {
    var i := 0;
    while i < |alpha|
      invariant i <= |alpha|
      invariant forall k :: 0 <= k < i ==> lower[k] == Fin(0.0) && upper[k] == SupportUpper(alpha[k])
    {
      lower[i] := Fin(0.0);
      if alpha[i] == 0.0 {
        upper[i] := Fin(0.0);
      } else {
        upper[i] := PosInf;
      }
      i := i + 1;
    }
  }

  /** Every random sample lies in the support. */
  lemma SampleInSupport(alpha: seq<real>, rng: Rng.RNG, i: nat)
    requires ValidAlpha(alpha) && rng.Valid() && i < |alpha|
    ensures Sum(GammaDraws(alpha, 0, rng).x) > 0.0
    ensures Le(Fin(0.0), Fin(Normalised(GammaDraws(alpha, 0, rng).x)[i]))
    ensures Le(Fin(Normalised(GammaDraws(alpha, 0, rng).x)[i]), SupportUpper(alpha[i]))
  {
    GammaSumPositive(alpha, rng);
    GammaDrawsSigns(alpha, 0, rng);
    var g := GammaDraws(alpha, 0, rng).x;
    DivideNonNegative(g[i], Sum(g));
  }

  lemma DivideNonNegative(a: real, c: real)
    requires a >= 0.0 && c > 0.0
    ensures a / c >= 0.0 && (a == 0.0 ==> a / c == 0.0)
  {
  }

  /** The sums and terms of the KL loop so far. */
  datatype KLAcc = KLAcc(s0: real, s1: real, y: real)

  /** (u - v) digamma(u) + lgamma(v) - lgamma(u): one component's term, and the total's correction. */
  function KLTerm(u: real, v: real, digamma: real -> real, lgamma: real -> real): real
  {
    (u - v) * digamma(u) + lgamma(v) - lgamma(u)
  }

  /** One element of the KL loop. */
  function KLNext(prev: Option<KLAcc>, u: real, v: real, digamma: real -> real, lgamma: real -> real): Option<KLAcc>
  {
    match prev
    case None => None
    case Some(acc) =>
      if u == 0.0 then Some(acc.(s1 := acc.s1 + v))
      else if v == 0.0 then None
      else Some(KLAcc(acc.s0 + u, acc.s1 + v, acc.y + KLTerm(u, v, digamma, lgamma)))
  }

  /**
   * The KL loop over the first elements: None once some element has
   * a1 != 0 and a2 = 0 (the loop returns +inf there).
   */
  function KLPrefix(a1: seq<real>, a2: seq<real>, digamma: real -> real, lgamma: real -> real): (acc: Option<KLAcc>)
    requires |a1| == |a2|
  {
    if |a1| == 0 then Some(KLAcc(0.0, 0.0, 0.0))
    else
      var n := |a1| - 1;
      KLNext(KLPrefix(a1[..n], a2[..n], digamma, lgamma), a1[n], a2[n], digamma, lgamma)
  }

  lemma {:induction false} KLPrefixInfinite(a1: seq<real>, a2: seq<real>, digamma: real -> real, lgamma: real -> real)
    requires |a1| == |a2|
    ensures KLPrefix(a1, a2, digamma, lgamma).None? <==> exists i :: 0 <= i < |a1| && a1[i] != 0.0 && a2[i] == 0.0
  {
    if |a1| > 0 {
      var n := |a1| - 1;
      KLPrefixInfinite(a1[..n], a2[..n], digamma, lgamma);
      assert forall i :: 0 <= i < n ==> a1[..n][i] == a1[i] && a2[..n][i] == a2[i];
    }
  }

  /**
   * KL: +inf when some component is a structural zero of the second
   * distribution but not of the first; otherwise the generalised beta
   * divergence.
   */
  function KLSpec(a1: seq<real>, a2: seq<real>, digamma: real -> real, lgamma: real -> real): (kl: Ext)
    requires |a1| == |a2|
    ensures kl == PosInf <==> exists i :: 0 <= i < |a1| && a1[i] != 0.0 && a2[i] == 0.0
  {
    KLPrefixInfinite(a1, a2, digamma, lgamma);
    match KLPrefix(a1, a2, digamma, lgamma)
    case None => PosInf
    case Some(acc) => Fin(acc.y - KLTerm(acc.s0, acc.s1, digamma, lgamma))
  }

  method KL(a1: seq<real>, a2: seq<real>, digamma: real -> real, lgamma: real -> real) returns (kl: Ext)
    requires |a1| == |a2|
    ensures kl == KLSpec(a1, a2, digamma, lgamma)
  {
    var acc := KLLoop(a1, a2, digamma, lgamma);
    if acc.None? {
      return PosInf;
    }
    var y := acc.value.y - KLTerm(acc.value.s0, acc.value.s1, digamma, lgamma);
    return Fin(y);
  }

  /** The loop of KL: the sums and terms, or None where the loop returns +inf. */
  method KLLoop(a1: seq<real>, a2: seq<real>, digamma: real -> real, lgamma: real -> real) returns (acc: Option<KLAcc>)
    requires |a1| == |a2|
    ensures acc == KLPrefix(a1, a2, digamma, lgamma)
  {
    var s0, s1, y := 0.0, 0.0, 0.0;
    var i := 0;
    while i < |a1|
      invariant i <= |a1| && KLPrefix(a1[..i], a2[..i], digamma, lgamma) == Some(KLAcc(s0, s1, y))
    {
      KLPrefixStep(a1, a2, i, digamma, lgamma);
      var u, v := a1[i], a2[i];
      if u == 0.0 {
        s1 := s1 + v;
      } else if v == 0.0 {
        KLPrefixInfinite(a1, a2, digamma, lgamma);
        return None;
      } else {
        y := y + KLTerm(u, v, digamma, lgamma);
        s0 := s0 + u;
        s1 := s1 + v;
      }
      i := i + 1;
    }
    assert a1[..i] == a1 && a2[..i] == a2;
    return Some(KLAcc(s0, s1, y));
  }

  /** One more element of the KL loop extends KLPrefix by KLNext. */
  lemma KLPrefixStep(a1: seq<real>, a2: seq<real>, i: nat, digamma: real -> real, lgamma: real -> real)
    requires |a1| == |a2| && i < |a1|
    ensures KLPrefix(a1[..i + 1], a2[..i + 1], digamma, lgamma)
         == KLNext(KLPrefix(a1[..i], a2[..i], digamma, lgamma), a1[i], a2[i], digamma, lgamma)
  {
    assert a1[..i + 1][..i] == a1[..i] && a2[..i + 1][..i] == a2[..i];
  }

  lemma {:induction false} KLPrefixSelf(a: seq<real>, digamma: real -> real, lgamma: real -> real)
    ensures KLPrefix(a, a, digamma, lgamma).Some?
    ensures KLPrefix(a, a, digamma, lgamma).value.s0 == KLPrefix(a, a, digamma, lgamma).value.s1
    ensures KLPrefix(a, a, digamma, lgamma).value.y == 0.0
  {
    if |a| > 0 {
      KLPrefixSelf(a[..|a| - 1], digamma, lgamma);
    }
  }

  /** A distribution is at divergence zero from itself. */
  lemma KLSelf(a: seq<real>, digamma: real -> real, lgamma: real -> real)
    ensures KLSpec(a, a, digamma, lgamma) == Fin(0.0)
  {
    KLPrefixSelf(a, digamma, lgamma);
  }
}
