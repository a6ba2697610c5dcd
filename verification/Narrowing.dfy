/** The test by which an edge between two arithmetic types is said to lose data. */
module Narrowing {

  /** An arithmetic type other than bool: an integer of so many bytes, or a binary floating-point
      number of so many bytes whose significand has `precision` bits. */
  datatype Num = Int(bytes: nat, signed: bool) | Float(bytes: nat, precision: nat)
  {
    predicate IsSigned() { Float? || signed }
  }

  predicate RequiresNarrowing(source: Num, sink: Num)
  {
    || source.bytes > sink.bytes
    || (source.Float? && sink.Int?)
    || (source.IsSigned() && !sink.IsSigned())
    || (!source.IsSigned() && sink.IsSigned() && source.bytes == sink.bytes)
  }

  function Pow2(n: nat): (r: int)
    ensures r > 0
  {
    if n == 0 then 1 else 2 * Pow2(n - 1)
  }

  lemma {:induction false} Pow2Grows(m: nat, n: nat)
    requires m < n
    ensures 2 * Pow2(m) <= Pow2(n)
  {
    if m < n - 1 { Pow2Grows(m, n - 1); }
  }

  /** The bits that carry magnitude. */
  function Bits(t: Num): int
    requires t.Int?
  {
    8 * t.bytes - (if t.signed then 1 else 0)
  }

  predicate InRange(t: Num, x: int)
    requires t.Int? && t.bytes > 0
  {
    (if t.signed then -Pow2(Bits(t)) else 0) <= x < Pow2(Bits(t))
  }

  /** For integers of every width and signedness the test is exact: an edge is free of narrowing
      exactly when every value of the source lies in the range of the sink. */
  lemma IntegerTestIsExact(source: Num, sink: Num)
    requires source.Int? && sink.Int? && source.bytes > 0 && sink.bytes > 0
    ensures !RequiresNarrowing(source, sink) <==> forall x :: InRange(source, x) ==> InRange(sink, x)
  {
    var a, b := Bits(source), Bits(sink);
    if a < b { Pow2Grows(a, b); }
    if b < a { Pow2Grows(b, a); }
    var top, bottom := Pow2(a) - 1, -Pow2(a);
    if RequiresNarrowing(source, sink) {
      if source.signed && !sink.signed {
        assert InRange(source, bottom) && !InRange(sink, bottom);
      } else {
        assert InRange(source, top) && !InRange(sink, top);
      }
    }
  }

  // ---------------------------------------------------------------------------------------
  // Integers into floating point

  /** `m` times two to the power `e`. */
  function Scaled(m: int, e: nat): int
  {
    if e == 0 then m else 2 * Scaled(m, e - 1)
  }

  lemma {:induction false} ScaledOne(e: nat)
    ensures Scaled(1, e) == Pow2(e)
  {
    if e > 0 { ScaledOne(e - 1); }
  }

  ghost predicate Significand(precision: nat, m: int)
  {
    -Pow2(precision) < m < Pow2(precision)
  }

  /** `x` is a significand below 2^precision times a power of two. */
  ghost predicate Representable(precision: nat, x: int)
  {
    exists m: int, e: nat :: Significand(precision, m) && x == Scaled(m, e)
  }

  lemma {:induction false} ScaledNegative(m: int, e: nat)
    ensures Scaled(-m, e) == -Scaled(m, e)
  {
    if e > 0 { ScaledNegative(m, e - 1); }
  }

  lemma SmallIsRepresentable(precision: nat, x: int)
    requires precision > 0 && -Pow2(precision) <= x <= Pow2(precision)
    ensures Representable(precision, x)
  {
    Pow2Grows(0, precision);
    ScaledOne(precision);
    ScaledNegative(1, precision);
    assert Significand(precision, 1) && Significand(precision, -1);
    assert Scaled(x, 0) == x;
    assert -Pow2(precision) < x < Pow2(precision) ==> Significand(precision, x);
  }

  /** The first odd number past 2^precision is lost. */
  lemma OddIsLost(precision: nat)
    requires precision > 0
    ensures !Representable(precision, Pow2(precision) + 1)
  {
    var half := Pow2(precision - 1);
    forall m: int, e: nat | Significand(precision, m) ensures 2 * half + 1 != Scaled(m, e) {
      if e > 0 { assert Scaled(m, e) == 2 * Scaled(m, e - 1); }
    }
  }

  /** When the magnitude exceeds the significand, that number is a value of the integer type. */
  lemma ValueLost(source: Num, precision: nat)
    requires source.Int? && source.bytes > 0 && Bits(source) > precision > 0
    ensures InRange(source, Pow2(precision) + 1) && !Representable(precision, Pow2(precision) + 1)
  {
    Pow2Grows(precision, Bits(source));
    Pow2Grows(0, precision);
    OddIsLost(precision);
  }

  ghost predicate FitsFloat(source: Num, sink: Num)
    requires source.Int? && sink.Float? && source.bytes > 0
  {
    forall x :: InRange(source, x) ==> Representable(sink.precision, x)
  }

  /** An integer type fits a floating-point type exactly when its magnitude fits the significand. */
  lemma FitsFloatExactly(source: Num, sink: Num)
    requires source.Int? && sink.Float? && source.bytes > 0 && sink.precision > 0
    ensures FitsFloat(source, sink) <==> Bits(source) <= sink.precision
  {
    var b, p := Bits(source), sink.precision;
    if b <= p {
      if b < p { Pow2Grows(b, p); }
      forall x | InRange(source, x) ensures Representable(p, x) {
        SmallIsRepresentable(p, x);
      }
    } else {
      ValueLost(source, p);
    }
  }

  const FLOAT := Float(4, 24)
  const DOUBLE := Float(8, 53)

  /** For the integers of 1, 2, 4 and 8 bytes and the two floating-point types, the test gives the
      right answer exactly when the integer is not a signed one of the same size as the float. */
  lemma FloatTestExactly(source: Num, sink: Num)
    requires source.Int? && source.bytes in {1, 2, 4, 8} && sink in {FLOAT, DOUBLE}
    ensures (!RequiresNarrowing(source, sink) <==> FitsFloat(source, sink)) <==>
            !(source.signed && source.bytes == sink.bytes)
  {
    FitsFloatExactly(source, sink);
  }

  /** A value that the test says is safe, and that is lost: 2^24 + 1, from a 4-byte signed integer. */
  lemma SafeValueLost()
    ensures !RequiresNarrowing(Int(4, true), FLOAT)
    ensures InRange(Int(4, true), Pow2(24) + 1) && !Representable(FLOAT.precision, Pow2(24) + 1)
  {
    ValueLost(Int(4, true), 24);
  }

  // ---------------------------------------------------------------------------------------
  // All the arithmetic types

  /** The number `n` divided by two to the power `e`. */
  datatype Dyadic = Dyadic(n: int, e: nat)

  ghost predicate HasInt(t: Num, d: Dyadic)
    requires t.Int? && t.bytes > 0
  {
    exists i :: InRange(t, i) && d.n == Scaled(i, d.e)
  }

  /** The significand `m`, scaled up or down by two to the power `k`, is the number `d`. */
  ghost predicate Shifted(m: int, k: nat, d: Dyadic)
  {
    d.n == Scaled(Scaled(m, k), d.e) || Scaled(d.n, k) == Scaled(m, d.e)
  }

  ghost predicate HasFloat(precision: nat, d: Dyadic)
  {
    exists m: int, k: nat :: Significand(precision, m) && Shifted(m, k, d)
  }

  ghost predicate Standard(t: Num)
  {
    (t.Int? && t.bytes in {1, 2, 4, 8}) || t in {FLOAT, DOUBLE}
  }

  ghost predicate Has(t: Num, d: Dyadic)
    requires Standard(t)
  {
    if t.Int? then HasInt(t, d) else HasFloat(t.precision, d)
  }

  /** Every value of the source is a value of the sink. */
  ghost predicate Fits(source: Num, sink: Num)
    requires Standard(source) && Standard(sink)
  {
    forall d :: Has(source, d) ==> Has(sink, d)
  }

  lemma IntHas(t: Num, i: int)
    requires t.Int? && t.bytes > 0
    ensures HasInt(t, Dyadic(i, 0)) <==> InRange(t, i)
  {
    assert forall j :: Scaled(j, 0) == j;
  }

  lemma {:induction false} ScaledGrows(i: int, k: nat)
    ensures i >= 0 ==> i <= Scaled(i, k)
    ensures i <= 0 ==> Scaled(i, k) <= i
  {
    if k > 0 { ScaledGrows(i, k - 1); }
  }

  /** The integers among the values of a floating-point type. */
  lemma FloatHas(precision: nat, i: int)
    requires precision > 0
    ensures HasFloat(precision, Dyadic(i, 0)) <==> Representable(precision, i)
  {
    if HasFloat(precision, Dyadic(i, 0)) {
      var m: int, k: nat :| Significand(precision, m) && Shifted(m, k, Dyadic(i, 0));
      assert Scaled(Scaled(m, k), 0) == Scaled(m, k) && Scaled(m, 0) == m;
      if i != Scaled(m, k) {
        ScaledGrows(i, k);
        SmallIsRepresentable(precision, i);
      }
    }
    if Representable(precision, i) {
      var m: int, e: nat :| Significand(precision, m) && i == Scaled(m, e);
      assert Scaled(Scaled(m, e), 0) == i;
      assert Shifted(m, e, Dyadic(i, 0));
    }
  }

  /** An integer that is a floating-point value stays one however it is written. */
  lemma FloatHasShifted(precision: nat, i: int, d: Dyadic)
    requires Representable(precision, i) && d.n == Scaled(i, d.e)
    ensures HasFloat(precision, d)
  {
    var m: int, e: nat :| Significand(precision, m) && i == Scaled(m, e);
    assert Shifted(m, e, d);
  }

  lemma IntFitsInt(source: Num, sink: Num)
    requires Standard(source) && Standard(sink) && source.Int? && sink.Int?
    ensures Fits(source, sink) <==> forall x :: InRange(source, x) ==> InRange(sink, x)
  {
    if Fits(source, sink) {
      forall x | InRange(source, x) ensures InRange(sink, x) {
        IntHas(source, x);
        IntHas(sink, x);
        assert Has(source, Dyadic(x, 0));
      }
    }
  }

  lemma IntFitsFloat(source: Num, sink: Num)
    requires Standard(source) && Standard(sink) && source.Int? && sink.Float?
    ensures Fits(source, sink) <==> FitsFloat(source, sink)
  {
    if Fits(source, sink) {
      forall x | InRange(source, x) ensures Representable(sink.precision, x) {
        IntHas(source, x);
        FloatHas(sink.precision, x);
        assert Has(source, Dyadic(x, 0));
      }
    }
    if FitsFloat(source, sink) {
      forall d | Has(source, d) ensures Has(sink, d) {
        var i :| InRange(source, i) && d.n == Scaled(i, d.e);
        FloatHasShifted(sink.precision, i, d);
      }
    }
  }

  /** One half is a value of every floating-point type and of no integer type. */
  lemma HalfIsLost(precision: nat)
    requires precision > 0
    ensures HasFloat(precision, Dyadic(1, 1))
    ensures forall t: Num :: t.Int? && t.bytes > 0 ==> !HasInt(t, Dyadic(1, 1))
  {
    Pow2Grows(0, precision);
    assert Significand(precision, 1) && Shifted(1, 1, Dyadic(1, 1));
    forall i: int ensures Scaled(i, 1) != 1 {
      assert Scaled(i, 1) == 2 * Scaled(i, 0);
    }
  }

  /** A wider significand has all values of a narrower one, and one more. */
  lemma WiderHasMore(p: nat, q: nat)
    requires 0 < p < q
    ensures forall d :: HasFloat(p, d) ==> HasFloat(q, d)
    ensures HasFloat(q, Dyadic(Pow2(p) + 1, 0)) && !HasFloat(p, Dyadic(Pow2(p) + 1, 0))
  {
    Pow2Grows(p, q);
    Pow2Grows(0, p);
    assert forall m :: Significand(p, m) ==> Significand(q, m);
    SmallIsRepresentable(q, Pow2(p) + 1);
    FloatHas(q, Pow2(p) + 1);
    FloatHas(p, Pow2(p) + 1);
    OddIsLost(p);
  }

  lemma FloatFits(source: Num, sink: Num)
    requires Standard(source) && Standard(sink) && source.Float?
    ensures Fits(source, sink) <==> sink.Float? && source.bytes <= sink.bytes
  {
    if sink.Int? {
      HalfIsLost(source.precision);
      assert Has(source, Dyadic(1, 1)) && !Has(sink, Dyadic(1, 1));
    } else if source.precision < sink.precision {
      WiderHasMore(source.precision, sink.precision);
    } else if sink.precision < source.precision {
      WiderHasMore(sink.precision, source.precision);
      var d := Dyadic(Pow2(sink.precision) + 1, 0);
      assert Has(source, d) && !Has(sink, d);
    }
  }

  /** For every two of the integers of 1, 2, 4 and 8 bytes, float and double: the test says that no narrowing
      is needed exactly when every value of the source is one of the sink, except for a signed integer and a
      floating-point type of the same size. */
  lemma TestExactly(source: Num, sink: Num)
    requires Standard(source) && Standard(sink)
    ensures (!RequiresNarrowing(source, sink) <==> Fits(source, sink)) <==>
            !(source.Int? && source.signed && sink.Float? && source.bytes == sink.bytes)
  {
    if source.Float? {
      FloatFits(source, sink);
    } else if sink.Int? {
      IntFitsInt(source, sink);
      IntegerTestIsExact(source, sink);
    } else {
      IntFitsFloat(source, sink);
      FloatTestExactly(source, sink);
    }
  }
}
