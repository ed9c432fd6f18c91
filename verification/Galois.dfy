// The field GF(256) of auth/flow-ui/qr.js: the EXP and LOG tables filled from
// powers of alpha = 2 modulo 0x11d, the table product, and the field laws it obeys.
module Galois {

  function Add(a: bv8, b: bv8): bv8 {
    a ^ b
  }

  function Shift(x: bv8): bv8 {
    x << 1
  }

  function Bit(x: bv8, mask: bv8): bool {
    x & mask != 0
  }

  // What the reduction by 0x11d adds when the shift pushes bit 7 out.
  function Overflow(x: bv8): bv8 {
    if Bit(x, 0x80) then 0x1d else 0
  }

  // Multiplication by alpha.
  function Double(x: bv8): bv8 {
    Add(Shift(x), Overflow(x))
  }

  // alpha^n * x
  function Times(n: nat, x: bv8): bv8 {
    if n == 0 then x else Double(Times(n - 1, x))
  }

  function Power(n: nat): bv8 {
    Times(n, 1)
  }

  function Pick(selected: bool, x: bv8): bv8 {
    if selected then x else 0
  }

  // 1 << k
  function Mask(k: nat): bv8 {
    if k == 0 then 1 else Shift(Mask(k - 1))
  }

  // The product with the low k coefficients of a.
  function PartialProduct(k: nat, a: bv8, b: bv8): bv8 {
    if k == 0 then 0
    else Add(PartialProduct(k - 1, a, b), Pick(Bit(a, Mask(k - 1)), Times(k - 1, b)))
  }

  // The independent definition of the product: shift-and-add multiplication of
  // polynomials over GF(2) reduced modulo 0x11d. It uses no tables and no logarithms.
  function Product(a: bv8, b: bv8): bv8 {
    PartialProduct(8, a, b)
  }

  // ---- Addition ----

  lemma AddAssoc(a: bv8, b: bv8, c: bv8)
    ensures Add(Add(a, b), c) == Add(a, Add(b, c))
  {}

  lemma AddComm(a: bv8, b: bv8)
    ensures Add(a, b) == Add(b, a)
  {}

  lemma AddZero(a: bv8)
    ensures Add(a, 0) == a && Add(0, a) == a && Add(a, a) == 0
  {}

  lemma AddCancel(a: bv8, b: bv8)
    ensures Add(a, Add(a, b)) == b
    ensures Add(a, b) == 0 ==> a == b
  {}

  lemma AddSwap(a: bv8, b: bv8, c: bv8, d: bv8)
    ensures Add(Add(a, b), Add(c, d)) == Add(Add(a, c), Add(b, d))
  {
    hide Add;
    calc {
      Add(Add(a, b), Add(c, d));
      { AddAssoc(a, b, Add(c, d)); }
      Add(a, Add(b, Add(c, d)));
      { AddAssoc(b, c, d); AddComm(b, c); AddAssoc(c, b, d); }
      Add(a, Add(c, Add(b, d)));
      { AddAssoc(a, c, Add(b, d)); }
      Add(Add(a, c), Add(b, d));
    }
  }

  lemma BitAdd(a: bv8, b: bv8, mask: bv8)
    requires mask in {0x01, 0x02, 0x04, 0x08, 0x10, 0x20, 0x40, 0x80}
    ensures Bit(Add(a, b), mask) == (Bit(a, mask) != Bit(b, mask))
  {}

  lemma ShiftAdd(a: bv8, b: bv8)
    ensures Shift(Add(a, b)) == Add(Shift(a), Shift(b))
  {}

  // ---- Doubling is linear and injective ----

  lemma DoubleAdd(a: bv8, b: bv8)
    ensures Double(Add(a, b)) == Add(Double(a), Double(b))
  {
    hide Add, Shift, Bit;
    BitAdd(a, b, 0x80);
    ShiftAdd(a, b);
    AddZero(0x1d);
    AddZero(0);
    AddSwap(Shift(a), Shift(b), Overflow(a), Overflow(b));
  }

  lemma DoubleInjective(a: bv8, b: bv8)
    requires Double(a) == Double(b)
    ensures a == b
  {}

  lemma {:induction false} TimesAdd(n: nat, a: bv8, b: bv8)
    ensures Times(n, Add(a, b)) == Add(Times(n, a), Times(n, b))
  {
    hide Double, Add;
    if n > 0 {
      TimesAdd(n - 1, a, b);
      DoubleAdd(Times(n - 1, a), Times(n - 1, b));
    }
  }

  lemma {:induction false} TimesSum(m: nat, n: nat, x: bv8)
    ensures Times(m + n, x) == Times(m, Times(n, x))
  {
    hide Double;
    if m > 0 {
      TimesSum(m - 1, n, x);
    }
  }

  lemma {:induction false} TimesZero(n: nat)
    ensures Times(n, 0) == 0
  {
    if n > 0 {
      TimesZero(n - 1);
    }
  }

  lemma {:induction false} TimesInjective(n: nat, a: bv8, b: bv8)
    requires Times(n, a) == Times(n, b)
    ensures a == b
  {
    hide Double;
    if n > 0 {
      DoubleInjective(Times(n - 1, a), Times(n - 1, b));
      TimesInjective(n - 1, a, b);
    }
  }

  lemma PowerNonzero(n: nat)
    ensures Power(n) != 0
  {
    if Power(n) == 0 {
      TimesZero(n);
      TimesInjective(n, 0, 1);
    }
  }

  // ---- The reference product agrees with iterated doubling ----

  // alpha^8 = alpha^4 + alpha^3 + alpha^2 + 1: the relation that 0x11d stands for.
  lemma Reduction(b: bv8)
    ensures Times(8, b) == Add(Add(b, Times(2, b)), Add(Times(3, b), Times(4, b)))
  {
    var b1 := Double(b); var b2 := Double(b1); var b3 := Double(b2); var b4 := Double(b3);
    var b5 := Double(b4); var b6 := Double(b5); var b7 := Double(b6);
    assert Times(1, b) == b1;
    assert Times(2, b) == b2;
    assert Times(3, b) == b3;
    assert Times(4, b) == b4;
    assert Times(5, b) == b5;
    assert Times(6, b) == b6;
    assert Times(7, b) == b7;
  }

  lemma PickAdd(p: bool, q: bool, x: bv8)
    ensures Pick(p != q, x) == Add(Pick(p, x), Pick(q, x))
  {
    AddZero(x);
    AddZero(0);
  }

  lemma MaskValues()
    ensures Mask(0) == 0x01 && Mask(1) == 0x02 && Mask(2) == 0x04 && Mask(3) == 0x08
    ensures Mask(4) == 0x10 && Mask(5) == 0x20 && Mask(6) == 0x40 && Mask(7) == 0x80
  {
    assert Mask(1) == 0x02;
    assert Mask(2) == 0x04;
    assert Mask(3) == 0x08;
    assert Mask(4) == 0x10;
    assert Mask(5) == 0x20;
    assert Mask(6) == 0x40;
  }

  lemma {:induction false} ProductAdd(k: nat, a: bv8, c: bv8, b: bv8)
    requires k <= 8
    ensures PartialProduct(k, Add(a, c), b) == Add(PartialProduct(k, a, b), PartialProduct(k, c, b))
  {
    hide Add, Bit, Pick, Times, Mask;
    if k == 0 {
      AddZero(0);
    } else {
      MaskValues();
      ProductAdd(k - 1, a, c, b);
      BitAdd(a, c, Mask(k - 1));
      PickAdd(Bit(a, Mask(k - 1)), Bit(c, Mask(k - 1)), Times(k - 1, b));
      AddSwap(PartialProduct(k - 1, a, b), PartialProduct(k - 1, c, b),
              Pick(Bit(a, Mask(k - 1)), Times(k - 1, b)), Pick(Bit(c, Mask(k - 1)), Times(k - 1, b)));
    }
  }

  lemma BitShift(a: bv8, mask: bv8)
    requires mask in {0x01, 0x02, 0x04, 0x08, 0x10, 0x20, 0x40}
    ensures Bit(Shift(a), Shift(mask)) == Bit(a, mask)
    ensures !Bit(Shift(a), 0x01)
  {}

  lemma {:induction false} ProductShift(k: nat, a: bv8, b: bv8)
    requires k <= 7
    ensures PartialProduct(k + 1, Shift(a), b) == PartialProduct(k, a, Double(b))
  {
    hide Add, Bit, Double;
    AddZero(0);
    BitShift(a, 0x01);
    if k == 0 {
      assert PartialProduct(1, Shift(a), b) ==
        Add(PartialProduct(0, Shift(a), b), Pick(Bit(Shift(a), Mask(0)), Times(0, b)));
    } else {
      MaskValues();
      ProductShift(k - 1, a, b);
      BitShift(a, Mask(k - 1));
      TimesSum(k - 1, 1, b);
      assert Times(1, b) == Double(b) by { assert Times(1, b) == Double(Times(0, b)); }
    }
  }

  lemma {:induction false} ProductByZero(k: nat, b: bv8)
    requires k <= 8
    ensures PartialProduct(k, 0, b) == 0
  {
    hide Add, Times;
    AddZero(0);
    if k > 0 {
      MaskValues();
      ProductByZero(k - 1, b);
    }
  }

  lemma TimesNone(b: bv8)
    ensures Times(0, b) == b && Times(1, b) == Double(b)
  {
    assert Times(1, b) == Double(Times(0, b));
  }

  lemma ProductByOverflow(b: bv8)
    ensures Product(0x1d, b) == Times(8, b)
  {
    hide Add, Times, Mask;
    MaskValues();
    AddZero(0);
    AddZero(b);
    assert Times(0, b) == b by { TimesNone(b); }
    assert PartialProduct(1, 0x1d, b) == Add(0, b);
    assert PartialProduct(2, 0x1d, b) == Add(b, 0);
    var t2, t3, t4 := Times(2, b), Times(3, b), Times(4, b);
    assert PartialProduct(3, 0x1d, b) == Add(b, t2);
    assert PartialProduct(4, 0x1d, b) == Add(Add(b, t2), t3);
    var p := PartialProduct(5, 0x1d, b);
    assert p == Add(Add(Add(b, t2), t3), t4);
    AddZero(p);
    assert PartialProduct(6, 0x1d, b) == p;
    assert PartialProduct(7, 0x1d, b) == p;
    AddAssoc(Add(b, t2), t3, t4);
    Reduction(b);
  }

  lemma LastTerm(a: bv8, b: bv8)
    ensures Product(a, Double(b)) == Add(PartialProduct(7, a, Double(b)), Pick(Bit(a, 0x80), Times(8, b)))
  {
    hide Add, Double, Bit;
    MaskValues();
    TimesSum(7, 1, b);
    TimesNone(b);
  }

  lemma ProductDouble(a: bv8, b: bv8)
    ensures Product(Double(a), b) == Product(a, Double(b))
  {
    hide Add, Times, Bit, PartialProduct;
    ProductAdd(8, Shift(a), Overflow(a), b);
    ProductShift(7, a, b);
    if Bit(a, 0x80) {
      ProductByOverflow(b);
    } else {
      ProductByZero(8, b);
    }
    LastTerm(a, b);
  }

  lemma ProductByOne(b: bv8)
    ensures Product(1, b) == b
  {
    hide Add, Times, Mask;
    MaskValues();
    AddZero(0);
    AddZero(b);
    TimesNone(b);
    assert PartialProduct(1, 1, b) == b;
    assert PartialProduct(2, 1, b) == b;
    assert PartialProduct(3, 1, b) == b;
    assert PartialProduct(4, 1, b) == b;
    assert PartialProduct(5, 1, b) == b;
    assert PartialProduct(6, 1, b) == b;
    assert PartialProduct(7, 1, b) == b;
  }

  lemma {:induction false} TimesIsProduct(n: nat, b: bv8)
    ensures Times(n, b) == Product(Power(n), b)
  {
    if n == 0 {
      ProductByOne(b);
    } else {
      hide Add, Double, Product;
      ProductDouble(Power(n - 1), b);
      TimesIsProduct(n - 1, Double(b));
      TimesSum(n - 1, 1, b);
      TimesNone(b);
    }
  }

  // ---- alpha has order 255 ----

  lemma PowerSum(m: nat, n: nat)
    ensures Power(m + n) == Product(Power(m), Power(n))
  {
    hide Product;
    TimesSum(m, n, 1);
    TimesIsProduct(m, Power(n));
  }

  // Four terms of a product written out, for bytes that are known.
  function Terms(p: bv8, s0: bool, t0: bv8, s1: bool, t1: bv8, s2: bool, t2: bv8, s3: bool, t3: bv8): bv8 {
    Add(Add(Add(Add(p, Pick(s0, t0)), Pick(s1, t1)), Pick(s2, t2)), Pick(s3, t3))
  }

  lemma ProductUnfold(a: bv8, b: bv8)
    ensures Product(a, b) == PartialProduct(8, a, b) && PartialProduct(0, a, b) == 0
  {}

  lemma ShiftedMasks()
    ensures Shift(0x01) == 0x02 && Shift(0x02) == 0x04 && Shift(0x04) == 0x08
    ensures Shift(0x10) == 0x20 && Shift(0x20) == 0x40 && Shift(0x40) == 0x80
  {}

  lemma PartialStep(k: nat, a: bv8, b: bv8)
    ensures PartialProduct(k + 1, a, b) == Add(PartialProduct(k, a, b), Pick(Bit(a, Mask(k)), Times(k, b)))
    ensures Times(k + 1, b) == Double(Times(k, b))
  {
    hide Add, Pick, Bit, Double, Mask;
  }

  lemma MaskStep(k: nat)
    ensures Mask(k + 1) == Shift(Mask(k))
  {
    hide Shift;
  }

  lemma TermsUnfold(p: bv8, s0: bool, t0: bv8, s1: bool, t1: bv8, s2: bool, t2: bv8, s3: bool, t3: bv8)
    ensures Terms(p, s0, t0, s1, t1, s2, t2, s3, t3)
         == Add(Add(Add(Add(p, Pick(s0, t0)), Pick(s1, t1)), Pick(s2, t2)), Pick(s3, t3))
  {}

  lemma PartialTerms(k: nat, a: bv8, b: bv8, m: bv8, t0: bv8, t1: bv8, t2: bv8, t3: bv8)
    requires m == Mask(k) && t0 == Times(k, b) && t1 == Double(t0) && t2 == Double(t1) && t3 == Double(t2)
    ensures PartialProduct(k + 4, a, b)
         == Terms(PartialProduct(k, a, b), Bit(a, m), t0, Bit(a, Shift(m)), t1,
                  Bit(a, Shift(Shift(m))), t2, Bit(a, Shift(Shift(Shift(m)))), t3)
  {
    hide *;
    PartialStep(k, a, b);
    PartialStep(k + 1, a, b);
    PartialStep(k + 2, a, b);
    PartialStep(k + 3, a, b);
    MaskStep(k);
    MaskStep(k + 1);
    MaskStep(k + 2);
    TermsUnfold(PartialProduct(k, a, b), Bit(a, m), t0, Bit(a, Shift(m)), t1,
                Bit(a, Shift(Shift(m))), t2, Bit(a, Shift(Shift(Shift(m)))), t3);
  }

  lemma ProductTerms(a: bv8, b: bv8, t1: bv8, t2: bv8, t3: bv8, t4: bv8, t5: bv8, t6: bv8, t7: bv8)
    requires t1 == Double(b) && t2 == Double(t1) && t3 == Double(t2) && t4 == Double(t3)
    requires t5 == Double(t4) && t6 == Double(t5) && t7 == Double(t6)
    ensures Product(a, b)
         == Terms(Terms(0, Bit(a, 0x01), b, Bit(a, 0x02), t1, Bit(a, 0x04), t2, Bit(a, 0x08), t3),
                  Bit(a, 0x10), t4, Bit(a, 0x20), t5, Bit(a, 0x40), t6, Bit(a, 0x80), t7)
  {
    ProductUnfold(a, b);
    MaskValues();
    ShiftedMasks();
    TimesNone(b);
    hide *;
    PartialTerms(0, a, b, 0x01, b, t1, t2, t3);
    PartialStep(1, a, b);
    PartialStep(2, a, b);
    PartialStep(3, a, b);
    PartialTerms(4, a, b, 0x10, t4, t5, t6, t7);
  }

  lemma Product34()
    ensures Product(0x98, 0x98) == 0x4e
  {
    ProductTerms(0x98, 0x98, 0x2d, 0x5a, 0xb4, 0x75, 0xea, 0xc9, 0x8f);
    hide Product;
  }

  lemma Product51()
    ensures Product(0x4e, 0x98) == 0x0a
  {
    ProductTerms(0x4e, 0x98, 0x2d, 0x5a, 0xb4, 0x75, 0xea, 0xc9, 0x8f);
    hide Product;
  }

  lemma Product85()
    ensures Product(0x0a, 0x4e) == 0xd6
  {
    ProductTerms(0x0a, 0x4e, 0x9c, 0x25, 0x4a, 0x94, 0x35, 0x6a, 0xd4);
    hide Product;
  }

  lemma Product170()
    ensures Product(0xd6, 0xd6) == 0xd7
  {
    ProductTerms(0xd6, 0xd6, 0xb1, 0x7f, 0xfe, 0xe1, 0xdf, 0xa3, 0x5b);
    hide Product;
  }

  lemma Product255()
    ensures Product(0xd7, 0xd6) == 1
  {
    ProductTerms(0xd7, 0xd6, 0xb1, 0x7f, 0xfe, 0xe1, 0xdf, 0xa3, 0x5b);
    hide Product;
  }

  lemma PowerValues()
    ensures Power(15) == 0x26 && Power(51) == 0x0a && Power(85) == 0xd6 && Power(255) == 1
  {
    assert Power(8) == 0x1d;
    assert Power(12) == 0xcd;
    assert Power(15) == 0x26;
    assert Power(17) == 0x98;
    PowerSum(17, 17);
    assert Product(0x98, 0x98) == 0x4e by { Product34(); }
    PowerSum(34, 17);
    assert Product(0x4e, 0x98) == 0x0a by { Product51(); }
    PowerSum(51, 34);
    assert Product(0x0a, 0x4e) == 0xd6 by { Product85(); }
    PowerSum(85, 85);
    assert Product(0xd6, 0xd6) == 0xd7 by { Product170(); }
    PowerSum(170, 85);
    assert Product(0xd7, 0xd6) == 1 by { Product255(); }
  }

  lemma {:induction false} PowerMultiple(m: nat, g: nat)
    ensures Power(g) == 1 ==> Power(m * g) == 1
  {
    hide Double;
    if m > 0 && Power(g) == 1 {
      PowerMultiple(m - 1, g);
      assert m * g == g + (m - 1) * g;
      TimesSum(g, (m - 1) * g, 1);
    }
  }

  // Two periods of alpha have a common divisor that is a period too.
  lemma {:induction false} CommonPeriod(a: nat, b: nat) returns (g: nat, p: nat, q: nat)
    requires a > 0 && b > 0 && Power(a) == 1 && Power(b) == 1
    ensures g > 0 && Power(g) == 1 && a == p * g && b == q * g
    decreases a + b
  {
    if a == b {
      g, p, q := a, 1, 1;
    } else if a > b {
      TimesSum(b, a - b, 1);
      TimesInjective(b, Power(a - b), 1);
      g, p, q := CommonPeriod(a - b, b);
      p := p + q;
    } else {
      TimesSum(a, b - a, 1);
      TimesInjective(a, Power(b - a), 1);
      g, p, q := CommonPeriod(a, b - a);
      q := p + q;
    }
  }

  lemma LargeFactors(q: nat, g: nat)
    ensures g >= 16 && q >= 16 ==> q * g >= 256
  {
    if g >= 16 && q >= 16 {
      assert (q - 16) * g >= 0;
    }
  }

  lemma DivisorAtMost(p: nat, g: nat)
    requires p * g > 0
    ensures g <= p * g
  {
    assert p != 0;
    assert (p - 1) * g >= 0;
  }

  lemma DivisorsOf255(g: nat, q: nat)
    requires q * g == 255 && g < 255
    ensures g in {1, 3, 5, 15, 17, 51, 85}
  {
    if g <= 15 {
      assert g in {0, 1, 2, 3, 4, 5, 6, 7, 8, 9, 10, 11, 12, 13, 14, 15};
    } else {
      LargeFactors(q, g);
      assert q in {0, 1, 2, 3, 4, 5, 6, 7, 8, 9, 10, 11, 12, 13, 14, 15};
    }
  }

  lemma DivisorsAreNotPeriods()
    ensures forall g: nat :: g in {1, 3, 5, 15, 17, 51, 85} ==> Power(g) != 1
  {
    hide Double;
    PowerValues();
    PowerMultiple(15, 1);
    PowerMultiple(5, 3);
    PowerMultiple(3, 5);
    PowerMultiple(3, 17);
  }

  lemma NoShorterPeriod(d: nat)
    requires 0 < d < 255
    ensures Power(d) != 1
  {
    if Power(d) == 1 {
      PowerValues();
      var g, p, q := CommonPeriod(d, 255);
      DivisorAtMost(p, g);
      DivisorsOf255(g, q);
      DivisorsAreNotPeriods();
    }
  }

  lemma PowerInjective(i: nat, j: nat)
    requires i < 255 && j < 255 && Power(i) == Power(j)
    ensures i == j
  {
    if i < j {
      TimesSum(i, j - i, 1);
      TimesInjective(i, Power(j - i), 1);
      NoShorterPeriod(j - i);
    } else if j < i {
      PowerInjective(j, i);
    }
  }

  lemma PowerCycle(n: nat)
    ensures Power(n + 255) == Power(n)
  {
    PowerValues();
    TimesSum(n, 255, 1);
  }

  // ---- Every nonzero byte is a power of alpha ----

  lemma IntOfByte(x: bv8)
    ensures (x as int) as bv8 == x
  {}

  lemma ByteSucc(x: bv8, b: int)
    requires 0 < b < 256 && x as int == b - 1
    ensures (x + 1) as int == b && b as bv8 == x + 1
  {}

  lemma {:induction false} ByteOfInt(b: int)
    requires 0 <= b < 256
    ensures (b as bv8) as int == b
  {
    if b > 0 {
      ByteOfInt(b - 1);
      ByteSucc((b - 1) as bv8, b);
    }
  }

  // The integers 1..n.
  ghost function UpTo(n: nat): (range: set<nat>)
    ensures |range| == n
    ensures forall k :: k in range <==> 1 <= k <= n
  {
    if n == 0 then {} else UpTo(n - 1) + {n}
  }

  // A byte as a number, to index a table.
  function Index(x: bv8): (k: nat)
    ensures k < 256
  {
    x as int
  }

  lemma IndexInjective(x: bv8, y: bv8)
    requires Index(x) == Index(y)
    ensures x == y
  {
    IntOfByte(x);
    IntOfByte(y);
  }

  lemma PowersApart(n: nat)
    requires n < 255
    ensures forall k: nat :: k < n ==> Index(Power(k)) != Index(Power(n))
  {
    forall k: nat | k < n
      ensures Index(Power(k)) != Index(Power(n))
    {
      if Index(Power(k)) == Index(Power(n)) {
        IndexInjective(Power(k), Power(n));
        PowerInjective(k, n);
      }
    }
  }

  // The numbers of the first n powers.
  ghost function Image(n: nat): set<nat> {
    set i: nat | i < n :: Index(Power(i))
  }

  lemma ImageMore(n: nat)
    ensures Image(0) == {} && Image(n + 1) == Image(n) + {Index(Power(n))}
  {
    hide Index, Power;
  }

  lemma ImageNew(n: nat)
    requires n < 255
    ensures Index(Power(n)) !in Image(n)
  {
    PowersApart(n);
    hide Index, Power;
  }

  lemma {:induction false} ImageSize(n: nat)
    requires n <= 255
    ensures |Image(n)| == n
  {
    hide *;
    if n == 0 {
      ImageMore(0);
    } else {
      ImageSize(n - 1);
      ImageMore(n - 1);
      ImageNew(n - 1);
    }
  }

  lemma {:induction false} SubsetOfSameSize<T>(a: set<T>, b: set<T>)
    requires a <= b && |a| == |b|
    ensures a == b
  {
    if |a| == 0 {
      assert b == {};
    } else {
      var x :| x in a;
      SubsetOfSameSize(a - {x}, b - {x});
      assert b == (b - {x}) + {x};
    }
  }

  lemma FromImage(n: nat, k: nat) returns (i: nat)
    requires k in Image(n)
    ensures i < n && Index(Power(i)) == k
  {
    hide Index, Power;
    i :| i < n && Index(Power(i)) == k;
  }

  lemma IndexOfNonzero(x: bv8)
    ensures x != 0 ==> Index(x) > 0
  {
    IntOfByte(x);
  }

  lemma PowerOnto(x: bv8)
    requires x != 0
    ensures exists i: nat :: i < 255 && Power(i) == x
  {
    hide Index, Power, UpTo;
    var bytes := UpTo(255);
    forall i: nat | i < 255
      ensures Index(Power(i)) in bytes
    {
      PowerNonzero(i);
      IndexOfNonzero(Power(i));
    }
    ImageSize(255);
    SubsetOfSameSize(Image(255), bytes);
    IndexOfNonzero(x);
    assert Index(x) in bytes;
    var i := FromImage(255, Index(x));
    IndexInjective(Power(i), x);
  }

  ghost function Log(x: bv8): (n: nat)
    requires x != 0
    ensures n < 255 && Power(n) == x
  {
    PowerOnto(x);
    var n: nat :| n < 255 && Power(n) == x;
    n
  }

  // ---- The table product and the field laws ----

  // What mul(a, b) computes from the two tables.
  ghost function Mul(a: bv8, b: bv8): bv8 {
    if a == 0 || b == 0 then 0 else Power(Log(a) + Log(b))
  }

  lemma MulIsTimes(a: bv8, b: bv8)
    requires a != 0
    ensures Mul(a, b) == Times(Log(a), b)
  {
    hide Add, Double, Product;
    if b == 0 {
      TimesZero(Log(a));
    } else {
      TimesSum(Log(a), Log(b), 1);
    }
  }

  // The table product is multiplication of polynomials modulo 0x11d.
  lemma MulIsProduct(a: bv8, b: bv8)
    ensures Mul(a, b) == Product(a, b)
  {
    hide Product;
    if a == 0 {
      assert Product(0, b) == 0 by { ProductByZero(8, b); ProductUnfold(0, b); }
    } else {
      MulIsTimes(a, b);
      TimesIsProduct(Log(a), b);
    }
  }

  lemma MulComm(a: bv8, b: bv8)
    ensures Mul(a, b) == Mul(b, a)
  {
    if a != 0 && b != 0 {
      assert Log(a) + Log(b) == Log(b) + Log(a);
    }
  }

  lemma MulAdd(a: bv8, b: bv8, c: bv8)
    ensures Mul(a, Add(b, c)) == Add(Mul(a, b), Mul(a, c))
    ensures Mul(Add(b, c), a) == Add(Mul(b, a), Mul(c, a))
  {
    hide Add;
    if a == 0 {
      AddZero(0);
    } else {
      MulIsTimes(a, b);
      MulIsTimes(a, c);
      MulIsTimes(a, Add(b, c));
      TimesAdd(Log(a), b, c);
    }
    MulComm(a, b);
    MulComm(a, c);
    MulComm(a, Add(b, c));
  }

  lemma MulAssoc(a: bv8, b: bv8, c: bv8)
    ensures Mul(Mul(a, b), c) == Mul(a, Mul(b, c))
  {
    hide Add, Double, Product;
    if a != 0 && b != 0 {
      var ab := Mul(a, b);
      PowerNonzero(Log(a) + Log(b));
      MulIsTimes(b, c);
      MulIsTimes(a, Mul(b, c));
      TimesSum(Log(a), Log(b), c);
      MulIsTimes(ab, c);
      TimesIsProduct(Log(ab), c);
      TimesIsProduct(Log(a) + Log(b), c);
    }
  }

  lemma MulOne(a: bv8)
    ensures Mul(a, 1) == a && Mul(1, a) == a
  {
    MulIsProduct(1, a);
    ProductByOne(a);
    MulComm(a, 1);
  }

  lemma MulNonzero(a: bv8, b: bv8)
    requires a != 0 && b != 0
    ensures Mul(a, b) != 0
  {
    PowerNonzero(Log(a) + Log(b));
  }

  lemma MulPower(m: nat, n: nat)
    ensures Mul(Power(m), Power(n)) == Power(m + n)
  {
    hide Product;
    MulIsProduct(Power(m), Power(n));
    PowerSum(m, n);
  }

  // ---- The tables ----

  lemma WideDouble(x: bv16)
    requires x < 0x100
    ensures x << 1 < 0x200
    ensures (x << 1) & 0x100 == 0 ==> x << 1 < 0x100 && (x << 1) as bv8 == Double(x as bv8)
    ensures (x << 1) & 0x100 != 0 ==>
              (x << 1) ^ 0x11d < 0x100 && ((x << 1) ^ 0x11d) as bv8 == Double(x as bv8)
  {}

  lemma NextPower(n: nat)
    ensures Power(0) == 1 && Power(n + 1) == Double(Power(n))
  {
    hide Double;
  }

  // The first loop: powers by doubling, and their logarithms.
  method FillPowers(exp: array<bv8>, log: array<nat>)
    requires exp.Length == 512 && log.Length == 256
    modifies exp, log
    ensures forall k :: 0 <= k < 255 ==> exp[k] == Power(k) && log[Index(Power(k))] == k
  {
    hide Power, Index, Double;
    var x: bv16 := 1;
    NextPower(0);
    for i := 0 to 255
      invariant x < 0x100 && x as bv8 == Power(i)
      invariant forall k :: 0 <= k < i ==> exp[k] == Power(k) && log[Index(Power(k))] == k
    {
      exp[i] := x as bv8;
      log[Index(x as bv8)] := i;
      PowersApart(i);
      NextPower(i);
      WideDouble(x);
      x := x << 1;
      if x & 0x100 != 0 {
        x := x ^ 0x11d;
      }
    }
  }

  // The second loop: the powers again, from 255 on.
  method ExtendPowers(exp: array<bv8>)
    requires exp.Length == 512 && forall k :: 0 <= k < 255 ==> exp[k] == Power(k)
    modifies exp
    ensures forall k :: 0 <= k < 512 ==> exp[k] == Power(k)
  {
    hide Power;
    for i := 255 to 512
      invariant forall k :: 0 <= k < i ==> exp[k] == Power(k)
    {
      exp[i] := exp[i - 255];
      PowerCycle(i - 255);
    }
  }

  class Tables {
    const EXP: array<bv8>
    const LOG: array<nat>

    ghost predicate Valid()
      reads EXP, LOG
    {
      && EXP.Length == 512
      && LOG.Length == 256
      && (forall i :: 0 <= i < 512 ==> EXP[i] == Power(i))
      && (forall x: bv8 :: x != 0 ==> LOG[Index(x)] == Log(x))
    }

    constructor ()
      ensures Valid() && fresh(EXP) && fresh(LOG)
    {
      EXP := new bv8[512](_ => 0);
      LOG := new nat[256](_ => 0);
      new;
      hide Power, Index, Log;
      FillPowers(EXP, LOG);
      ExtendPowers(EXP);
    }

    function Multiply(a: bv8, b: bv8): (product: bv8)
      requires Valid()
      reads EXP, LOG
      ensures product == Mul(a, b)
    {
      if a == 0 || b == 0 then 0
      else
        assert LOG[Index(a)] == Log(a) && LOG[Index(b)] == Log(b);
        EXP[LOG[Index(a)] + LOG[Index(b)]]
    }
  }
}
