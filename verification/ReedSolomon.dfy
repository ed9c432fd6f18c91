// Reed-Solomon error correction of auth/flow-ui/qr.js: the generator polynomial, the
// shift-register division, and what the code is for: every block vanishes at the roots,
// and two different blocks differ in more places than the degree.
module ReedSolomon {
  import opened Galois
  import opened Hamming

  // A polynomial: its coefficients, leading coefficient first.
  type Poly = seq<bv8>

  ghost function Eval(p: Poly, x: bv8): bv8 {
    if p == [] then 0 else Add(Mul(Eval(p[..|p| - 1], x), x), p[|p| - 1])
  }

  ghost function Pow(x: bv8, n: nat): bv8 {
    if n == 0 then 1 else Mul(Pow(x, n - 1), x)
  }

  function Sum(p: Poly, q: Poly): Poly
    requires |p| == |q|
  {
    seq(|p|, i requires 0 <= i < |p| => Add(p[i], q[i]))
  }

  ghost function Scale(p: Poly, c: bv8): Poly {
    seq(|p|, i requires 0 <= i < |p| => Mul(p[i], c))
  }

  function Reverse(p: Poly): Poly {
    if p == [] then [] else Reverse(p[1..]) + [p[0]]
  }

  // ---- The division register and the generator ----

  // The generator in ascending powers, as the loop builds it: multiply by (alpha^i + x).
  ghost function Ascending(degree: nat): (p: Poly)
    ensures |p| == degree + 1
  {
    if degree == 0 then [1]
    else
      var p := Ascending(degree - 1);
      Sum(Scale(p, Power(degree - 1)) + [0], [0] + p)
  }

  ghost function Generator(degree: nat): Poly {
    Reverse(Ascending(degree))
  }

  lemma {:induction false} ReverseLength(p: Poly)
    ensures |Reverse(p)| == |p|
    ensures forall k :: 0 <= k < |p| ==> Reverse(p)[k] == p[|p| - 1 - k]
  {
    if p != [] {
      ReverseLength(p[1..]);
    }
  }

  // One byte through the register: shift in a zero, add the multiple of the generator.
  ghost function Step(degree: nat, rem: Poly, byte: bv8): (r: Poly)
    requires |rem| == degree > 0
    ensures |r| == degree
  {
    ReverseLength(Ascending(degree));
    Sum(rem[1..] + [0], Scale(Generator(degree)[1..], Add(byte, rem[0])))
  }

  ghost function Remainder(data: Poly, degree: nat): (rem: Poly)
    requires degree > 0
    ensures |rem| == degree
  {
    if data == [] then seq(degree, _ => 0)
    else Step(degree, Remainder(data[..|data| - 1], degree), data[|data| - 1])
  }

  ghost function Codeword(data: Poly, degree: nat): Poly
    requires degree > 0
  {
    data + Remainder(data, degree)
  }

  // A word of the code: zero at alpha^0, ..., alpha^(degree-1).
  ghost predicate Vanishes(word: Poly, degree: nat) {
    forall i: nat :: i < degree ==> Eval(word, Power(i)) == 0
  }

  // ---- Evaluation is a ring homomorphism ----

  lemma {:induction false} EvalSum(p: Poly, q: Poly, x: bv8)
    requires |p| == |q|
    ensures Eval(Sum(p, q), x) == Add(Eval(p, x), Eval(q, x))
  {
    hide Add, Mul;
    if p == [] {
      AddZero(0);
    } else {
      var n := |p| - 1;
      assert Sum(p, q)[..n] == Sum(p[..n], q[..n]);
      EvalSum(p[..n], q[..n], x);
      var ep, eq := Eval(p[..n], x), Eval(q[..n], x);
      MulAdd(x, ep, eq);
      AddSwap(Mul(ep, x), Mul(eq, x), p[n], q[n]);
    }
  }

  lemma MulZero(a: bv8)
    ensures Mul(a, 0) == 0 && Mul(0, a) == 0
  {}

  lemma MulSwap(a: bv8, b: bv8, c: bv8)
    ensures Mul(Mul(a, b), c) == Mul(Mul(a, c), b)
  {
    hide Mul;
    MulAssoc(a, b, c);
    MulComm(b, c);
    MulAssoc(a, c, b);
  }

  lemma {:induction false} EvalScale(p: Poly, c: bv8, x: bv8)
    ensures Eval(Scale(p, c), x) == Mul(Eval(p, x), c)
  {
    hide Add, Mul;
    if p == [] {
      MulZero(c);
    } else {
      var n := |p| - 1;
      assert Scale(p, c)[..n] == Scale(p[..n], c);
      EvalScale(p[..n], c, x);
      var e := Eval(p[..n], x);
      MulSwap(e, c, x);
      MulAdd(c, Mul(e, x), p[n]);
    }
  }

  lemma {:induction false} EvalConcat(p: Poly, q: Poly, x: bv8)
    ensures Eval(p + q, x) == Add(Mul(Eval(p, x), Pow(x, |q|)), Eval(q, x))
  {
    hide Add, Mul;
    if q == [] {
      assert p + q == p;
      MulOne(Eval(p, x));
      AddZero(Eval(p, x));
    } else {
      var n := |q| - 1;
      assert (p + q)[..|p + q| - 1] == p + q[..n];
      EvalConcat(p, q[..n], x);
      var ep, eq, xn := Eval(p, x), Eval(q[..n], x), Pow(x, n);
      MulAdd(x, Mul(ep, xn), eq);
      MulAssoc(ep, xn, x);
      AddAssoc(Mul(Mul(ep, xn), x), Mul(eq, x), q[n]);
    }
  }

  lemma EvalOne(c: bv8, x: bv8)
    ensures Eval([c], x) == c
  {
    assert [c][..0] == [];
    MulZero(x);
    AddZero(c);
  }

  // ---- The generator is the product of (x + alpha^i) ----

  // Reversal turns the loop's ascending list into the leading-first polynomial.
  lemma {:induction false} ReverseConcat(p: Poly, q: Poly)
    ensures Reverse(p + q) == Reverse(q) + Reverse(p)
  {
    if p == [] {
      assert p + q == q;
    } else {
      assert (p + q)[1..] == p[1..] + q;
      ReverseConcat(p[1..], q);
    }
  }

  lemma ReverseSum(p: Poly, q: Poly)
    requires |p| == |q|
    ensures |Reverse(p)| == |Reverse(q)|
    ensures Reverse(Sum(p, q)) == Sum(Reverse(p), Reverse(q))
  {
    ReverseLength(p);
    ReverseLength(q);
    ReverseLength(Sum(p, q));
  }

  lemma ReverseScale(p: Poly, c: bv8)
    ensures Reverse(Scale(p, c)) == Scale(Reverse(p), c)
  {
    ReverseLength(p);
    ReverseLength(Scale(p, c));
  }

  lemma GeneratorStep(degree: nat)
    requires degree > 0
    ensures |Generator(degree - 1)| == degree
    ensures Generator(degree)
         == Sum([0] + Scale(Generator(degree - 1), Power(degree - 1)), Generator(degree - 1) + [0])
  {
    hide Add, Mul, Power;
    var p := Ascending(degree - 1);
    var a := Power(degree - 1);
    ReverseLength(p);
    ReverseSum(Scale(p, a) + [0], [0] + p);
    ReverseConcat(Scale(p, a), [0]);
    ReverseConcat([0], p);
    ReverseScale(p, a);
    assert Reverse([0]) == [0];
  }

  lemma GeneratorFactor(degree: nat, x: bv8)
    requires degree > 0
    ensures Eval(Generator(degree), x) == Mul(Eval(Generator(degree - 1), x), Add(x, Power(degree - 1)))
  {
    hide Add, Mul, Power, Generator;
    var g, a := Generator(degree - 1), Power(degree - 1);
    GeneratorStep(degree);
    EvalSum([0] + Scale(g, a), g + [0], x);
    EvalConcat([0], Scale(g, a), x);
    EvalOne(0, x);
    MulZero(Pow(x, |g|));
    EvalScale(g, a, x);
    EvalConcat(g, [0], x);
    assert Pow(x, 1) == Mul(Pow(x, 0), x);
    MulOne(x);
    var e := Eval(g, x);
    AddZero(Mul(e, a));
    AddZero(Mul(e, x));
    MulAdd(e, x, a);
    AddComm(Mul(e, a), Mul(e, x));
  }

  lemma {:induction false} GeneratorIsMonic(degree: nat)
    ensures |Generator(degree)| == degree + 1 && Generator(degree)[0] == 1
  {
    ReverseLength(Ascending(degree));
    if degree > 0 {
      hide Mul, Power, Generator;
      GeneratorIsMonic(degree - 1);
      GeneratorStep(degree);
      AddZero(1);
    }
  }

  lemma GeneratorOfNone(x: bv8)
    ensures Eval(Generator(0), x) == 1
  {
    hide Add, Mul;
    assert Ascending(0) == [1];
    assert Reverse([1]) == [1];
    EvalOne(1, x);
  }

  lemma ProductIsZero(a: bv8, b: bv8)
    ensures Mul(a, b) == 0 <==> a == 0 || b == 0
  {
    if a != 0 && b != 0 {
      MulNonzero(a, b);
    }
  }

  // The roots of the generator are exactly alpha^0, ..., alpha^(degree-1).
  lemma {:induction false} GeneratorRoots(degree: nat, x: bv8)
    ensures Eval(Generator(degree), x) == 0 <==> exists i: nat :: i < degree && x == Power(i)
  {
    hide Add, Power, Mul, Eval, Generator;
    if degree == 0 {
      GeneratorOfNone(x);
    } else {
      GeneratorFactor(degree, x);
      GeneratorRoots(degree - 1, x);
      var e, f := Eval(Generator(degree - 1), x), Add(x, Power(degree - 1));
      AddCancel(x, Power(degree - 1));
      AddZero(x);
      ProductIsZero(e, f);
      if e == 0 {
        var i: nat :| i < degree - 1 && x == Power(i);
        assert i < degree && x == Power(i);
      } else if f == 0 {
        assert degree - 1 < degree && x == Power(degree - 1);
      }
    }
  }

  // ---- Every block followed by its remainder vanishes at the roots ----

  lemma EvalCons(c: bv8, tail: Poly, word: Poly, x: bv8)
    requires word == [c] + tail
    ensures Eval(word, x) == Add(Mul(c, Pow(x, |tail|)), Eval(tail, x))
  {
    hide Add, Mul, Eval;
    EvalConcat([c], tail, x);
    EvalOne(c, x);
  }

  lemma EvalShift(p: Poly, x: bv8)
    ensures Eval(p + [0], x) == Mul(Eval(p, x), x)
  {
    hide Add, Mul, Eval;
    EvalConcat(p, [0], x);
    EvalOne(0, x);
    assert Pow(x, 1) == Mul(Pow(x, 0), x);
    MulOne(x);
    AddZero(Mul(Eval(p, x), x));
  }

  // A root of a monic polynomial: its other terms come to x^degree.
  lemma TailAtRoot(tail: Poly, gen: Poly, x: bv8)
    requires gen == [1] + tail && Eval(gen, x) == 0
    ensures Eval(tail, x) == Pow(x, |tail|)
  {
    hide Add, Mul, Eval, Pow;
    EvalCons(1, tail, gen, x);
    MulOne(Pow(x, |tail|));
    AddCancel(Pow(x, |tail|), Eval(tail, x));
  }

  lemma PowMore(x: bv8, n: nat)
    ensures Pow(x, n + 1) == Mul(Pow(x, n), x)
  {
    hide Mul;
  }

  lemma ScaleLength(p: Poly, c: bv8)
    ensures |Scale(p, c)| == |p|
  {}

  lemma RegisterAlgebra(e: bv8, x: bv8, byte: bv8, r0: bv8, tail: bv8, xt: bv8, xd: bv8)
    requires xd == Mul(xt, x)
    requires Mul(e, xd) == Add(Mul(r0, xt), tail)
    ensures Mul(Add(Mul(e, x), byte), xd) == Add(Mul(tail, x), Mul(Add(byte, r0), xd))
  {
    hide Add, Mul;
    // (e x + byte) x^d = (e x^d) x + byte x^d = (r0 x^(d-1) + tail) x + byte x^d
    MulAdd(xd, Mul(e, x), byte);
    MulSwap(e, x, xd);
    MulAdd(x, Mul(r0, xt), tail);
    MulAssoc(r0, xt, x);
    MulAdd(xd, byte, r0);
    var a, b, c := Mul(r0, xd), Mul(tail, x), Mul(byte, xd);
    AddComm(a, b);
    AddAssoc(b, a, c);
    AddComm(a, c);
  }

  // One byte through a register of head and tail, divided by a polynomial [1] + gen.
  lemma RegisterAtRoot(gen: Poly, head: bv8, tail: Poly, byte: bv8, e: bv8, x: bv8)
    requires |gen| == |tail| + 1 && Eval([1] + gen, x) == 0
    requires Mul(e, Pow(x, |gen|)) == Eval([head] + tail, x)
    ensures Mul(Add(Mul(e, x), byte), Pow(x, |gen|)) == Eval(Sum(tail + [0], Scale(gen, Add(byte, head))), x)
  {
    PowMore(x, |tail|);
    hide *;
    var f, t, xt, xd := Add(byte, head), Eval(tail, x), Pow(x, |tail|), Pow(x, |gen|);
    TailAtRoot(gen, [1] + gen, x);
    EvalCons(head, tail, [head] + tail, x);
    EvalShift(tail, x);
    ScaleLength(gen, f);
    EvalSum(tail + [0], Scale(gen, f), x);
    EvalScale(gen, f, x);
    RegisterAlgebra(e, x, byte, head, t, xt, xd);
    MulComm(xd, f);
  }

  lemma StepUnfold(degree: nat, rem: Poly, byte: bv8)
    requires |rem| == degree > 0
    ensures |Generator(degree)| == degree + 1
    ensures Step(degree, rem, byte) == Sum(rem[1..] + [0], Scale(Generator(degree)[1..], Add(byte, rem[0])))
  {
    ReverseLength(Ascending(degree));
    hide Add, Mul, Scale;
  }

  lemma StepAtRoot(degree: nat, rem: Poly, byte: bv8, e: bv8, x: bv8)
    requires |rem| == degree > 0
    requires Eval(Generator(degree), x) == 0
    requires Mul(e, Pow(x, degree)) == Eval(rem, x)
    ensures Mul(Add(Mul(e, x), byte), Pow(x, degree)) == Eval(Step(degree, rem, byte), x)
  {
    hide *;
    GeneratorIsMonic(degree);
    StepUnfold(degree, rem, byte);
    var gen := Generator(degree)[1..];
    assert Generator(degree) == [1] + gen;
    assert rem == [rem[0]] + rem[1..];
    RegisterAtRoot(gen, rem[0], rem[1..], byte, e, x);
  }

  lemma {:induction false} EvalZeros(n: nat, x: bv8)
    ensures Eval(seq(n, _ => 0), x) == 0
  {
    if n > 0 {
      assert seq(n, _ => 0 as bv8)[..n - 1] == seq(n - 1, _ => 0);
      EvalZeros(n - 1, x);
      MulZero(x);
      AddZero(0);
    }
  }

  lemma {:induction false} RemainderAtRoot(data: Poly, degree: nat, x: bv8)
    requires degree > 0 && Eval(Generator(degree), x) == 0
    ensures Mul(Eval(data, x), Pow(x, degree)) == Eval(Remainder(data, degree), x)
  {
    hide Add, Mul, Generator, Step;
    if data == [] {
      MulZero(Pow(x, degree));
      EvalZeros(degree, x);
    } else {
      var n := |data| - 1;
      RemainderAtRoot(data[..n], degree, x);
      StepAtRoot(degree, Remainder(data[..n], degree), data[n], Eval(data[..n], x), x);
    }
  }

  // For every block of any length and every positive degree.
  lemma CodewordVanishes(data: Poly, degree: nat)
    requires degree > 0
    ensures Vanishes(Codeword(data, degree), degree)
  {
    hide Add, Mul, Generator, Power;
    forall i: nat | i < degree
      ensures Eval(Codeword(data, degree), Power(i)) == 0
    {
      var x := Power(i);
      GeneratorRoots(degree, x);
      RemainderAtRoot(data, degree, x);
      EvalConcat(data, Remainder(data, degree), x);
      AddZero(Eval(Remainder(data, degree), x));
    }
  }

  // ---- Distance: different words of the code differ in more than degree places ----

  // A word as a list of its nonzero terms c * x^e, each with its locator alpha^e.
  datatype Term = Term(coefficient: bv8, locator: bv8)

  ghost function Terms(word: Poly): seq<Term> {
    if word == [] then []
    else (if word[0] == 0 then [] else [Term(word[0], Power(|word| - 1))]) + Terms(word[1..])
  }

  ghost function PowerSumOf(terms: seq<Term>, i: nat): bv8 {
    if terms == [] then 0
    else Add(Mul(terms[0].coefficient, Pow(terms[0].locator, i)), PowerSumOf(terms[1..], i))
  }

  ghost predicate Distinct(terms: seq<Term>) {
    forall j, k :: 0 <= j < k < |terms| ==> terms[j].locator != terms[k].locator
  }

  // Multiplies every coefficient by (locator + x).
  ghost function Fold(terms: seq<Term>, x: bv8): (folded: seq<Term>)
    ensures |folded| == |terms|
    ensures forall k :: 0 <= k < |terms| ==>
      folded[k] == Term(Mul(terms[k].coefficient, Add(terms[k].locator, x)), terms[k].locator)
  {
    if terms == [] then []
    else [Term(Mul(terms[0].coefficient, Add(terms[0].locator, x)), terms[0].locator)] + Fold(terms[1..], x)
  }

  lemma {:induction false} FoldSum(terms: seq<Term>, x: bv8, i: nat)
    ensures PowerSumOf(Fold(terms, x), i) == Add(PowerSumOf(terms, i + 1), Mul(PowerSumOf(terms, i), x))
  {
    hide Add, Mul, Power;
    if terms == [] {
      MulZero(x);
      AddZero(0);
    } else {
      FoldSum(terms[1..], x, i);
      assert Fold(terms, x)[1..] == Fold(terms[1..], x);
      var c, l := terms[0].coefficient, terms[0].locator;
      var li, s, s' := Pow(l, i), PowerSumOf(terms[1..], i), PowerSumOf(terms[1..], i + 1);
      assert Pow(l, i + 1) == Mul(li, l);
      // c (l + x) l^i = c l^(i+1) + c l^i x
      MulSwap(c, Add(l, x), li);
      MulAdd(Mul(c, li), l, x);
      MulAssoc(c, li, l);
      MulAdd(x, Mul(c, li), s);
      AddSwap(Mul(c, Mul(li, l)), Mul(Mul(c, li), x), s', Mul(s, x));
    }
  }

  lemma {:induction false} SumOfZeros(terms: seq<Term>)
    requires forall k :: 0 <= k < |terms| ==> terms[k].coefficient == 0
    ensures PowerSumOf(terms, 0) == 0
  {
    hide Add, Mul;
    if terms != [] {
      SumOfZeros(terms[1..]);
      MulZero(Pow(terms[0].locator, 0));
      AddZero(0);
    }
  }

  // The Vandermonde argument: n terms with distinct locators whose first n power sums
  // all vanish have only zero coefficients.
  lemma {:induction false} Vandermonde(terms: seq<Term>)
    requires Distinct(terms)
    requires forall i: nat :: i < |terms| ==> PowerSumOf(terms, i) == 0
    ensures forall k :: 0 <= k < |terms| ==> terms[k].coefficient == 0
    decreases |terms|
  {
    hide Add, Mul, Power;
    if terms != [] {
      var x, rest := terms[0].locator, terms[1..];
      var folded := Fold(rest, x);
      forall i: nat | i < |folded|
        ensures PowerSumOf(folded, i) == 0
      {
        FoldSum(terms, x, i);
        assert PowerSumOf(terms, i) == 0 && PowerSumOf(terms, i + 1) == 0;
        MulZero(x);
        AddZero(0);
        AddZero(x);
        MulZero(terms[0].coefficient);
        MulZero(Pow(x, i));
        AddZero(PowerSumOf(folded, i));
        assert Fold(terms, x)[1..] == folded;
      }
      Vandermonde(folded);
      forall k | 0 <= k < |rest|
        ensures rest[k].coefficient == 0
      {
        assert rest[k] == terms[k + 1];
        AddCancel(rest[k].locator, x);
        ProductIsZero(rest[k].coefficient, Add(rest[k].locator, x));
        assert folded[k].coefficient == 0;
      }
      SumOfZeros(rest);
      assert PowerSumOf(terms, 0) == 0;
      MulOne(terms[0].coefficient);
      AddZero(terms[0].coefficient);
      assert Pow(x, 0) == 1;
    }
  }

  lemma PowerZero()
    ensures Power(0) == 1
  {}

  lemma {:induction false} PowOfPower(e: nat, i: nat)
    ensures Pow(Power(e), i) == Power(e * i)
  {
    hide Mul, Power;
    if i == 0 {
      PowerZero();
    } else {
      PowOfPower(e, i - 1);
      MulPower(e * (i - 1), e);
      assert e * (i - 1) + e == e * i;
    }
  }

  lemma {:induction false} EvalAsPowerSum(word: Poly, i: nat)
    ensures Eval(word, Power(i)) == PowerSumOf(Terms(word), i)
  {
    hide Add, Mul, Power;
    if word != [] {
      var x, e := Power(i), |word| - 1;
      EvalAsPowerSum(word[1..], i);
      assert word == [word[0]] + word[1..];
      EvalConcat([word[0]], word[1..], x);
      EvalOne(word[0], x);
      PowOfPower(e, i);
      PowOfPower(i, e);
      assert e * i == i * e;
      if word[0] == 0 {
        MulZero(Pow(x, e));
        AddZero(Eval(word[1..], x));
        assert Terms(word) == Terms(word[1..]);
      } else {
        assert Terms(word)[1..] == Terms(word[1..]);
      }
    }
  }

  lemma {:induction false} TermsOf(word: Poly)
    ensures forall k :: 0 <= k < |Terms(word)| ==> Terms(word)[k].coefficient != 0
    ensures forall k :: 0 <= k < |Terms(word)| ==>
              exists e: nat :: e < |word| && Terms(word)[k].locator == Power(e)
    ensures |word| <= 255 ==> Distinct(Terms(word))
  {
    hide Power;
    if word != [] {
      TermsOf(word[1..]);
      var rest := Terms(word[1..]);
      forall k | 0 <= k < |rest|
        ensures exists e: nat :: e < |word| && rest[k].locator == Power(e)
        ensures |word| <= 255 ==> rest[k].locator != Power(|word| - 1)
      {
        var e: nat :| e < |word[1..]| && rest[k].locator == Power(e);
        assert e < |word|;
        if |word| <= 255 && Power(e) == Power(|word| - 1) { PowerInjective(e, |word| - 1); }
      }
      if word[0] != 0 {
        assert Terms(word) == [Term(word[0], Power(|word| - 1))] + rest;
        forall k | 0 <= k < |Terms(word)|
          ensures exists e: nat :: e < |word| && Terms(word)[k].locator == Power(e)
        {
          if k == 0 {
            assert |word| - 1 < |word| && Terms(word)[0].locator == Power(|word| - 1);
          } else {
            assert Terms(word)[k] == rest[k - 1];
          }
        }
      } else {
        assert Terms(word) == rest;
      }
    }
  }

  lemma {:induction false} DistanceIsTerms(u: Poly, v: Poly)
    requires |u| == |v|
    ensures |Terms(Sum(u, v))| == Distance(u, v)
  {
    hide Power, Add;
    if u != [] {
      AddCancel(u[0], v[0]);
      AddZero(u[0]);
      assert Sum(u, v)[1..] == Sum(u[1..], v[1..]);
      DistanceIsTerms(u[1..], v[1..]);
    }
  }

  // Two different words of the code, of one length up to 255, differ in more than
  // degree places.
  lemma MinimumDistance(u: Poly, v: Poly, degree: nat)
    requires |u| == |v| <= 255 && u != v
    requires Vanishes(u, degree) && Vanishes(v, degree)
    ensures Distance(u, v) > degree
  {
    hide Add, Mul, Power;
    var terms := Terms(Sum(u, v));
    DistanceIsTerms(u, v);
    TermsOf(Sum(u, v));
    if |terms| <= degree {
      forall i: nat | i < |terms|
        ensures PowerSumOf(terms, i) == 0
      {
        EvalAsPowerSum(Sum(u, v), i);
        EvalSum(u, v, Power(i));
        AddZero(0);
      }
      var first := if terms == [] then 0 else terms[0].coefficient;
      Vandermonde(terms);
      NoDistance(u, v);
    }
  }

  // The remainder is the only error-correction block of its length that makes the
  // block vanish: both directions.
  lemma RemainderIsUnique(data: Poly, ec: Poly, degree: nat)
    requires |ec| == degree > 0 && |data| + degree <= 255
    ensures Vanishes(data + ec, degree) <==> ec == Remainder(data, degree)
  {
    hide Add, Mul, Power, Generator, Remainder;
    var rem := Remainder(data, degree);
    CodewordVanishes(data, degree);
    if Vanishes(data + ec, degree) && ec != rem {
      assert (data + ec)[|data|..] == ec && (data + rem)[|data|..] == rem;
      MinimumDistance(data + ec, data + rem, degree);
      SamePrefix(data, ec, rem);
    }
  }

  // Up to degree/2 damaged bytes in a block leave it nearest to the block that was sent.
  lemma DamageIsCorrectable(sent: Poly, other: Poly, received: Poly, degree: nat)
    requires degree > 0 && |sent| == |other| && |sent| + degree <= 255
    requires |received| == |sent| + degree
    requires 2 * Distance(received, Codeword(sent, degree)) <= degree
    requires sent != other
    ensures Distance(received, Codeword(other, degree)) > Distance(received, Codeword(sent, degree))
  {
    hide Add, Mul, Power, Generator, Remainder;
    var u, v := Codeword(sent, degree), Codeword(other, degree);
    CodewordVanishes(sent, degree);
    CodewordVanishes(other, degree);
    assert u[..|sent|] == sent && v[..|sent|] == other;
    MinimumDistance(u, v, degree);
    Triangle(u, v, received);
  }

  // ---- The two loops of the source ----

  // Coefficient k of p times (alpha^i + x), in ascending powers.
  ghost function Coefficient(p: Poly, a: bv8, k: nat): bv8
    requires k <= |p|
  {
    Add(if k < |p| then Mul(p[k], a) else 0, if k > 0 then p[k - 1] else 0)
  }

  lemma CoefficientsSum(p: Poly, a: bv8, next: Poly)
    requires |next| == |p| + 1 && forall k :: 0 <= k <= |p| ==> next[k] == Coefficient(p, a, k)
    ensures next == Sum(Scale(p, a) + [0], [0] + p)
  {
    hide Add, Mul;
    var sum := Sum(Scale(p, a) + [0], [0] + p);
    forall k | 0 <= k <= |p|
      ensures next[k] == sum[k]
    {
      assert next[k] == Coefficient(p, a, k);
    }
  }

  lemma CoefficientParts(p: Poly, a: bv8, k: nat)
    requires k < |p|
    ensures Coefficient(p, a, k) == Add(if k > 0 then p[k - 1] else 0, Mul(p[k], a))
    ensures Add(0, p[k]) == p[k]
    ensures k == |p| - 1 ==> Coefficient(p, a, k + 1) == p[k]
  {
    hide Add, Mul;
    AddComm(if k > 0 then p[k - 1] else 0, Mul(p[k], a));
    AddZero(p[k]);
  }

  // One pass of the outer loop: the next partial generator, filled in place.
  method TimesLinear(tables: Tables, poly: array<bv8>, i: nat) returns (next: array<bv8>)
    requires tables.Valid() && i < 512 && poly.Length > 0
    ensures fresh(next)
    ensures next[..] == Sum(Scale(poly[..], Power(i)) + [0], [0] + poly[..])
  {
    hide Add, Mul, Power, Tables.Multiply, Coefficient, Sum, Scale;
    next := new bv8[poly.Length + 1](_ => 0);
    ghost var p, a := poly[..], Power(i);
    for j := 0 to poly.Length
      invariant tables.Valid() && poly[..] == p
      invariant forall k :: 0 <= k < j ==> next[k] == Coefficient(p, a, k)
      invariant next[j] == if j > 0 then p[j - 1] else 0
      invariant j == poly.Length ==> next[j] == Coefficient(p, a, j)
      invariant forall k :: j < k < next.Length ==> next[k] == 0
    {
      CoefficientParts(p, a, j);
      next[j] := Add(next[j], tables.Multiply(poly[j], tables.EXP[i]));
      next[j + 1] := Add(next[j + 1], poly[j]);
    }
    CoefficientsSum(p, a, next[..]);
  }

  lemma AscendingMore(degree: nat)
    ensures Ascending(0) == [1]
    ensures Ascending(degree + 1)
         == Sum(Scale(Ascending(degree), Power(degree)) + [0], [0] + Ascending(degree))
  {
    hide Sum, Scale, Power;
  }

  method RsGenerator(tables: Tables, degree: nat) returns (gen: array<bv8>)
    requires tables.Valid() && degree <= 512
    ensures fresh(gen) && gen[..] == Generator(degree)
  {
    hide Add, Mul, Power, Sum, Scale, Ascending, Reverse;
    var poly := new bv8[1][1];
    AscendingMore(0);
    for i := 0 to degree
      invariant fresh(poly) && tables.Valid()
      invariant poly[..] == Ascending(i)
    {
      AscendingMore(i);
      poly := TimesLinear(tables, poly, i);
    }
    ReverseLength(poly[..]);
    gen := new bv8[poly.Length](k requires 0 <= k < poly.Length reads poly => poly[poly.Length - 1 - k]);
  }

  method RsRemainder(tables: Tables, data: Poly, degree: nat) returns (rem: Poly)
    requires tables.Valid() && 0 < degree <= 512
    ensures rem == Remainder(data, degree)
  {
    hide Add, Mul, Power, Generator, Tables.Multiply;
    var gen := RsGenerator(tables, degree);
    GeneratorIsMonic(degree);
    rem := seq(degree, _ => 0);
    for n := 0 to |data|
      invariant rem == Remainder(data[..n], degree)
    {
      ghost var before := rem;
      var factor := Add(data[n], rem[0]);
      rem := rem[1..] + [0];
      ghost var shifted := rem;
      for i := 0 to degree
        invariant |rem| == degree
        invariant forall k :: 0 <= k < i ==> rem[k] == Add(shifted[k], Mul(gen[k + 1], factor))
        invariant forall k :: i <= k < degree ==> rem[k] == shifted[k]
      {
        rem := rem[i := Add(rem[i], tables.Multiply(gen[i + 1], factor))];
      }
      assert data[..n + 1][..n] == data[..n];
      assert rem == Step(degree, before, data[n]);
    }
    assert data[..|data|] == data;
  }
}
