/** The field GF(2^8) with reduction polynomial x^8 + x^4 + x^3 + x^2 + 1 that the audio parity code computes in.
    The bit-level definitions are used only in the first group of lemmas; everything after it hides them and reasons
    with the field laws, because exclusive-or under many layers of function application is costly to bit-blast. */
module GaloisField {

  import opened Wrappers

  type element = bv8

  datatype FieldError = InvertZero

  // Addition and subtraction are both exclusive or.
  function Add(a: element, b: element): element {
    a ^ b
  }

  // Multiplication by the element x.
  function Double(a: element): element {
    if a & 0x80 != 0 then (a << 1) ^ 0x1d else a << 1
  }

  function Half(b: element): element {
    b >> 1
  }

  // The contribution of the lowest bit of b to the product of a and b.
  function Term(a: element, b: element): element {
    if b & 1 != 0 then a else 0
  }

  function Mul(a: element, b: element): element
    decreases b
  {
    if b == 0 then 0 else Add(Term(a, b), Mul(Double(a), Half(b)))
  }

  function Pow(a: element, n: nat): element {
    if n == 0 then 1 else Mul(a, Pow(a, n - 1))
  }

  function Inverse(a: element): element {
    Pow(a, 254)
  }

  function Div(a: element, b: element): element {
    Mul(a, Inverse(b))
  }

  // ---------- Bit-level facts ----------

  lemma XorAssoc(a: element, b: element, c: element)
    ensures (a ^ b) ^ c == a ^ (b ^ c)
  {}

  lemma AddAssoc(a: element, b: element, c: element)
    ensures Add(Add(a, b), c) == Add(a, Add(b, c))
  {
    XorAssoc(a, b, c);
  }

  lemma AddLaws(a: element, b: element)
    ensures Add(a, b) == Add(b, a)
    ensures Add(a, a) == 0
    ensures Add(a, 0) == a == Add(0, a)
  {}

  lemma TermLinear(a: element, b: element, c: element)
    ensures Term(Add(a, b), c) == Add(Term(a, c), Term(b, c))
    ensures Term(a, Add(b, c)) == Add(Term(a, b), Term(a, c))
  {}

  lemma HalfLinear(a: element, b: element)
    ensures Half(Add(a, b)) == Add(Half(a), Half(b))
    ensures Half(a) | Half(b) == Half(a | b)
  {}

  lemma HalfSmaller(b: element)
    requires b != 0
    ensures Half(b) < b
  {}

  function Shift(a: element): element {
    a << 1
  }

  function Carry(a: element): element {
    if a & 0x80 != 0 then 0x1d else 0
  }

  lemma DoubleSplit(a: element)
    ensures Double(a) == Add(Shift(a), Carry(a))
  {}

  lemma ShiftLinear(a: element, b: element)
    ensures Shift(Add(a, b)) == Add(Shift(a), Shift(b))
  {}

  lemma CarryLinear(a: element, b: element)
    ensures Carry(Add(a, b)) == Add(Carry(a), Carry(b))
  {}

  lemma DoubleTerm(a: element, b: element)
    ensures Double(Term(a, b)) == Term(Double(a), b)
  {}

  lemma MulUnfold(a: element, b: element)
    ensures Mul(a, b) == Add(Term(a, b), Mul(Double(a), Half(b)))
  {}

  // A element is its even part plus its lowest bit.
  lemma SplitLowBit(b: element)
    ensures Add(Term(1, b), Double(Half(b))) == b
  {}

  // Double shifts out the top bit and adds the reduction constant for it.
  lemma SplitHighBit(b: element)
    ensures b & 0x80 == 0 ==> Term(1, Double(b)) == 0 && Half(Double(b)) == b
    ensures b & 0x80 != 0 ==> Double(b) == Add(Shift(b), 0x1d) && b == Add(Half(Shift(b)), 0x80)
    ensures forall a :: Term(a, Shift(b)) == 0
  {}

  // x^8 = x^4 + x^3 + x^2 + 1
  lemma Reduction(a: element)
    ensures Double(Double(Double(Double(Double(Double(Double(Double(a)))))))) ==
            Add(a, Add(Double(Double(a)), Add(Double(Double(Double(a))), Double(Double(Double(Double(a)))))))
  {}

  // ---------- Ring laws ----------

  lemma AddSwap(p: element, q: element, r: element, s: element)
    ensures Add(Add(p, q), Add(r, s)) == Add(Add(p, r), Add(q, s))
  {
    hide *;
    AddAssoc(p, q, Add(r, s));
    AddAssoc(q, r, s);
    AddLaws(q, r);
    AddAssoc(r, q, s);
    AddAssoc(p, r, Add(q, s));
  }

  lemma DoubleAdd(a: element, b: element)
    ensures Double(Add(a, b)) == Add(Double(a), Double(b))
  {
    hide *;
    DoubleSplit(Add(a, b));
    DoubleSplit(a);
    DoubleSplit(b);
    ShiftLinear(a, b);
    CarryLinear(a, b);
    AddSwap(Shift(a), Carry(a), Shift(b), Carry(b));
  }

  lemma {:induction false} MulZero(a: element)
    ensures Mul(a, 0) == 0 == Mul(0, a)
    decreases a
  {
    if a != 0 {
      MulZero(Half(a));
    }
  }

  lemma MulOne(a: element)
    ensures Mul(a, 1) == a
  {
    MulUnfold(a, 1);
    MulZero(Double(a));
  }

  lemma {:induction false} MulAddLeft(a: element, b: element, c: element)
    ensures Mul(Add(a, b), c) == Add(Mul(a, c), Mul(b, c))
    decreases c
  {
    hide *;
    if c == 0 {
      MulZero(a);
      MulZero(b);
      MulZero(Add(a, b));
      AddLaws(0, 0);
    } else {
      HalfSmaller(c);
      MulUnfold(Add(a, b), c);
      MulUnfold(a, c);
      MulUnfold(b, c);
      DoubleAdd(a, b);
      TermLinear(a, b, c);
      MulAddLeft(Double(a), Double(b), Half(c));
      AddSwap(Term(a, c), Term(b, c), Mul(Double(a), Half(c)), Mul(Double(b), Half(c)));
    }
  }

  lemma {:induction false} MulAddRight(a: element, b: element, c: element)
    ensures Mul(a, Add(b, c)) == Add(Mul(a, b), Mul(a, c))
    decreases b | c
  {
    hide *;
    if b | c == 0 {
      assert b == 0 == c;
      MulZero(a);
      AddLaws(0, 0);
    } else {
      HalfLinear(b, c);
      HalfSmaller(b | c);
      MulUnfold(a, Add(b, c));
      MulUnfold(a, b);
      MulUnfold(a, c);
      TermLinear(a, b, c);
      MulAddRight(Double(a), Half(b), Half(c));
      AddSwap(Term(a, b), Term(a, c), Mul(Double(a), Half(b)), Mul(Double(a), Half(c)));
    }
  }

  lemma {:induction false} DoubleMul(a: element, b: element)
    ensures Double(Mul(a, b)) == Mul(Double(a), b)
    decreases b
  {
    if b == 0 {
    } else {
      hide *;
      HalfSmaller(b);
      MulUnfold(a, b);
      MulUnfold(Double(a), b);
      DoubleAdd(Term(a, b), Mul(Double(a), Half(b)));
      DoubleTerm(a, b);
      DoubleMul(Double(a), Half(b));
    }
  }

  lemma MulByBit(a: element, b: element)
    ensures Mul(a, b) == if b & 1 != 0 then Add(a, Mul(Double(a), Half(b))) else Mul(Double(a), Half(b))
  {
    MulUnfold(a, b);
    hide Add, Mul, Half, Double;
    AddLaws(0, Mul(Double(a), Half(b)));
    AddLaws(Mul(Double(a), Half(b)), 0);
  }

  // The recursion written out over the eight bits of the second factor.
  function EightTerms(a: element, b: element): element {
    var a1 := Double(a);
    var a2 := Double(a1);
    var a3 := Double(a2);
    var a4 := Double(a3);
    var a5 := Double(a4);
    var a6 := Double(a5);
    var a7 := Double(a6);
    Pick(b & 1, a) ^ (Pick(b & 2, a1) ^ (Pick(b & 4, a2) ^ (Pick(b & 8, a3) ^
      (Pick(b & 0x10, a4) ^ (Pick(b & 0x20, a5) ^ (Pick(b & 0x40, a6) ^ Pick(b & 0x80, a7)))))))
  }

  lemma AddEight(t0: element, t1: element, t2: element, t3: element, t4: element, t5: element, t6: element, t7: element)
    ensures Add(t0, Add(t1, Add(t2, Add(t3, Add(t4, Add(t5, Add(t6, t7))))))) ==
            t0 ^ (t1 ^ (t2 ^ (t3 ^ (t4 ^ (t5 ^ (t6 ^ t7))))))
  {
    hide Add;
    AddFour(t4, t5, t6, t7);
    var rest := Add(t4, Add(t5, Add(t6, t7)));
    AddIsXor(t3, rest);
    AddFour(t0, t1, t2, t3 ^ rest);
  }

  lemma AddIsXor(a: element, b: element)
    ensures Add(a, b) == a ^ b
  {}

  lemma AddFour(a: element, b: element, c: element, d: element)
    ensures Add(a, Add(b, Add(c, d))) == a ^ (b ^ (c ^ d))
  {}

  lemma EightTermsAreAdded(a: element, b: element)
    ensures
      var a1 := Double(a);
      var a2 := Double(a1);
      var a3 := Double(a2);
      var a4 := Double(a3);
      var a5 := Double(a4);
      var a6 := Double(a5);
      var a7 := Double(a6);
      EightTerms(a, b) ==
      Add(Pick(b & 1, a), Add(Pick(b & 2, a1), Add(Pick(b & 4, a2), Add(Pick(b & 8, a3),
        Add(Pick(b & 0x10, a4), Add(Pick(b & 0x20, a5), Add(Pick(b & 0x40, a6), Pick(b & 0x80, a7))))))))
  {
    hide Add, Double, Pick;
    var a1 := Double(a);
    var a2 := Double(a1);
    var a3 := Double(a2);
    var a4 := Double(a3);
    var a5 := Double(a4);
    var a6 := Double(a5);
    var a7 := Double(a6);
    AddEight(Pick(b & 1, a), Pick(b & 2, a1), Pick(b & 4, a2), Pick(b & 8, a3), Pick(b & 0x10, a4),
      Pick(b & 0x20, a5), Pick(b & 0x40, a6), Pick(b & 0x80, a7));
  }

  lemma EightBits(b: element)
    ensures Half(b) & 1 != 0 <==> b & 2 != 0
    ensures Half(Half(b)) & 1 != 0 <==> b & 4 != 0
    ensures Half(Half(Half(b))) & 1 != 0 <==> b & 8 != 0
    ensures Half(Half(Half(Half(b)))) & 1 != 0 <==> b & 0x10 != 0
    ensures Half(Half(Half(Half(Half(b))))) & 1 != 0 <==> b & 0x20 != 0
    ensures Half(Half(Half(Half(Half(Half(b)))))) & 1 != 0 <==> b & 0x40 != 0
    ensures Half(Half(Half(Half(Half(Half(Half(b))))))) & 1 != 0 <==> b & 0x80 != 0
    ensures Half(Half(Half(Half(Half(Half(Half(Half(b)))))))) == 0
  {}

  function Pick(bit: element, a: element): element {
    if bit != 0 then a else 0
  }

  lemma TermBits(a: element, b: element)
    ensures Term(a, b) == Pick(b & 1, a)
    ensures Term(a, Half(b)) == Pick(b & 2, a)
    ensures Term(a, Half(Half(b))) == Pick(b & 4, a)
    ensures Term(a, Half(Half(Half(b)))) == Pick(b & 8, a)
    ensures Term(a, Half(Half(Half(Half(b))))) == Pick(b & 0x10, a)
    ensures Term(a, Half(Half(Half(Half(Half(b)))))) == Pick(b & 0x20, a)
    ensures Term(a, Half(Half(Half(Half(Half(Half(b))))))) == Pick(b & 0x40, a)
    ensures Term(a, Half(Half(Half(Half(Half(Half(Half(b)))))))) == Pick(b & 0x80, a)
  {
    EightBits(b);
    hide Half;
  }

  lemma MulIsEightTerms(a: element, b: element)
    ensures Mul(a, b) == EightTerms(a, b)
  {
    var a1 := Double(a);
    var a2 := Double(a1);
    var a3 := Double(a2);
    var a4 := Double(a3);
    var a5 := Double(a4);
    var a6 := Double(a5);
    var a7 := Double(a6);
    var b1 := Half(b);
    var b2 := Half(b1);
    var b3 := Half(b2);
    var b4 := Half(b3);
    var b5 := Half(b4);
    var b6 := Half(b5);
    var b7 := Half(b6);
    hide *;
    EightTermsAreAdded(a, b);
    EightBits(b);
    TermBits(a, b);
    TermBits(a1, b);
    TermBits(a2, b);
    TermBits(a3, b);
    TermBits(a4, b);
    TermBits(a5, b);
    TermBits(a6, b);
    TermBits(a7, b);
    MulUnfold(a, b);
    MulUnfold(a1, b1);
    MulUnfold(a2, b2);
    MulUnfold(a3, b3);
    MulUnfold(a4, b4);
    MulUnfold(a5, b5);
    MulUnfold(a6, b6);
    MulUnfold(a7, b7);
    MulZero(Double(a7));
    AddLaws(Term(a7, b7), 0);
  }

  lemma MulTop(a: element)
    ensures Mul(Double(a), 0x80) == Mul(a, 0x1d)
  {
    hide Add, Mul, Double;
    Reduction(a);
    var a1 := Double(a);
    var a2 := Double(a1);
    var a3 := Double(a2);
    var a4 := Double(a3);
    var a5 := Double(a4);
    var a6 := Double(a5);
    var a7 := Double(a6);
    MulByBit(a1, 0x80);
    MulByBit(a2, 0x40);
    MulByBit(a3, 0x20);
    MulByBit(a4, 0x10);
    MulByBit(a5, 8);
    MulByBit(a6, 4);
    MulByBit(a7, 2);
    MulOne(Double(a7));
    MulByBit(a, 0x1d);
    MulByBit(a1, 0x0e);
    MulByBit(a2, 7);
    MulByBit(a3, 3);
    MulOne(a4);
  }

  lemma MulDouble(a: element, b: element)
    ensures Mul(a, Double(b)) == Mul(Double(a), b)
  {
    SplitHighBit(b);
    if b & 0x80 == 0 {
      MulUnfold(a, Double(b));
    } else {
      hide *;
      MulUnfold(a, Shift(b));
      AddLaws(Mul(Double(a), Half(Shift(b))), 0);
      MulAddRight(a, Shift(b), 0x1d);
      MulAddRight(Double(a), Half(Shift(b)), 0x80);
      MulTop(a);
    }
  }

  lemma {:induction false} MulOneLeft(a: element)
    ensures Mul(1, a) == a
    decreases a
  {
    if a != 0 {
      MulOneLeft(Half(a));
      hide Add, Mul, Term;
      MulUnfold(1, a);
      DoubleMul(1, Half(a));
      SplitLowBit(a);
    }
  }

  lemma TermIsProduct(a: element, b: element)
    ensures Term(a, b) == Mul(Term(1, b), a) == Mul(a, Term(1, b))
  {
    MulZero(a);
    MulOne(a);
    MulOneLeft(a);
  }

  lemma {:induction false} MulComm(a: element, b: element)
    ensures Mul(a, b) == Mul(b, a)
    decreases b
  {
    hide *;
    if b == 0 {
      MulZero(a);
    } else {
      HalfSmaller(b);
      MulUnfold(a, b);
      TermIsProduct(a, b);
      MulComm(Double(a), Half(b));
      MulDouble(Half(b), a);
      MulAddLeft(Term(1, b), Double(Half(b)), a);
      SplitLowBit(b);
    }
  }

  lemma {:induction false} MulAssoc(a: element, b: element, c: element)
    ensures Mul(Mul(a, b), c) == Mul(a, Mul(b, c))
    decreases c
  {
    hide *;
    if c == 0 {
      MulZero(a);
      MulZero(b);
      MulZero(Mul(a, b));
    } else {
      HalfSmaller(c);
      MulUnfold(Mul(a, b), c);
      MulUnfold(b, c);
      DoubleMul(a, b);
      MulDouble(a, b);
      MulAssoc(a, Double(b), Half(c));
      TermIsProduct(Mul(a, b), c);
      TermIsProduct(b, c);
      OneBitAssoc(a, b, c);
      MulAddRight(a, Term(b, c), Mul(Double(b), Half(c)));
    }
  }

  lemma OneBitAssoc(a: element, b: element, c: element)
    ensures Term(Mul(a, b), c) == Mul(a, Term(b, c))
  {
    MulZero(a);
  }

  // ---------- Powers ----------

  lemma {:induction false} PowAdd(a: element, m: nat, n: nat)
    ensures Pow(a, m + n) == Mul(Pow(a, m), Pow(a, n))
  {
    if m == 0 {
      MulOneLeft(Pow(a, n));
    } else {
      PowAdd(a, m - 1, n);
      MulAssoc(a, Pow(a, m - 1), Pow(a, n));
    }
  }

  lemma {:induction false} PowSquare(a: element, n: nat)
    ensures Pow(Mul(a, a), n) == Pow(a, 2 * n)
  {
    if n == 0 {
    } else {
      PowSquare(a, n - 1);
      MulAssoc(a, a, Pow(a, 2 * (n - 1)));
      assert Pow(a, 2 * n) == Mul(a, Pow(a, 2 * n - 1));
    }
  }

  // ---------- Every non-zero element is invertible ----------

  // Squaring moves bit i to x^(2i).
  function Spread(a: element): element {
    (if a & 1 != 0 then 1 else 0) ^ (if a & 2 != 0 then 4 else 0) ^
    (if a & 4 != 0 then 0x10 else 0) ^ (if a & 8 != 0 then 0x40 else 0) ^
    (if a & 0x10 != 0 then 0x1d else 0) ^ (if a & 0x20 != 0 then 0x74 else 0) ^
    (if a & 0x40 != 0 then 0xcd else 0) ^ (if a & 0x80 != 0 then 0x13 else 0)
  }

  // Doubling twice shifts every term of Spread by one bit, as long as the highest bit is clear.
  function Shifted(h: element): element {
    (if h & 1 != 0 then 4 else 0) ^ (if h & 2 != 0 then 0x10 else 0) ^
    (if h & 4 != 0 then 0x40 else 0) ^ (if h & 8 != 0 then 0x1d else 0) ^
    (if h & 0x10 != 0 then 0x74 else 0) ^ (if h & 0x20 != 0 then 0xcd else 0) ^
    (if h & 0x40 != 0 then 0x13 else 0)
  }

  lemma SpreadTwice(h: element)
    ensures h & 0x80 == 0 ==> Double(Double(Spread(h))) == Shifted(h)
  {}

  lemma SpreadHalves(a: element)
    ensures Half(a) & 0x80 == 0 && Spread(a) == Add(Term(1, a), Shifted(Half(a)))
  {}

  lemma SpreadStep(a: element)
    ensures Spread(a) == Add(Term(1, a), Double(Double(Spread(Half(a)))))
  {
    hide Add, Term, Double, Spread, Half;
    SpreadTwice(Half(a));
    SpreadHalves(a);
  }

  lemma SquareAdd(a: element, b: element)
    ensures Mul(Add(a, b), Add(a, b)) == Add(Mul(a, a), Mul(b, b))
  {
    hide *;
    MulAddLeft(a, b, Add(a, b));
    MulAddRight(a, a, b);
    MulAddRight(b, a, b);
    MulComm(a, b);
    AddLaws(Mul(a, b), Mul(b, b));
    AddAssoc(Mul(a, a), Mul(a, b), Add(Mul(a, b), Mul(b, b)));
    AddAssoc(Mul(a, b), Mul(a, b), Mul(b, b));
    AddLaws(Mul(b, b), 0);
  }

  lemma SquareDouble(a: element)
    ensures Mul(Double(a), Double(a)) == Double(Double(Mul(a, a)))
  {
    hide *;
    DoubleMul(a, Double(a));
    MulDouble(a, a);
    DoubleMul(a, a);
  }

  lemma SquareBit(b: element)
    ensures Mul(Term(1, b), Term(1, b)) == Term(1, b)
  {
    MulOne(1);
    MulZero(0);
  }

  lemma {:induction false} SquareIsSpread(a: element)
    ensures Mul(a, a) == Spread(a)
    decreases a
  {
    if a == 0 {
    } else {
      hide *;
      HalfSmaller(a);
      SplitLowBit(a);
      SquareAdd(Term(1, a), Double(Half(a)));
      SquareBit(a);
      SquareDouble(Half(a));
      SquareIsSpread(Half(a));
      SpreadStep(a);
    }
  }

  // The only idempotents are 0 and 1, so the reduction polynomial does not split.
  lemma IdempotentIsTrivial(a: element)
    requires Mul(a, a) == a
    ensures a == 0 || a == 1
  {
    SquareIsSpread(a);
    hide Mul;
    assert Spread(a) == a;
  }

  lemma PowEven(a: element, n: nat)
    ensures Pow(a, 2 * n) == Pow(Spread(a), n)
  {
    PowSquare(a, n);
    SquareIsSpread(a);
  }

  // Squaring eight times is the identity.
  lemma SpreadEightTimes(a: element)
    ensures Spread(Spread(Spread(Spread(Spread(Spread(Spread(Spread(a)))))))) == a
  {}

  lemma Pow256(a: element)
    ensures Pow(a, 256) == a
  {
    hide *;
    var a1 := Spread(a);
    var a2 := Spread(a1);
    var a3 := Spread(a2);
    var a4 := Spread(a3);
    var a5 := Spread(a4);
    var a6 := Spread(a5);
    var a7 := Spread(a6);
    PowEven(a, 128);
    PowEven(a1, 64);
    PowEven(a2, 32);
    PowEven(a3, 16);
    PowEven(a4, 8);
    PowEven(a5, 4);
    PowEven(a6, 2);
    PowEven(a7, 1);
    PowOne(Spread(a7));
    SpreadEightTimes(a);
  }

  lemma PowOne(a: element)
    ensures Pow(a, 1) == a
  {
    MulOne(a);
  }

  lemma PowNext(a: element, n: nat)
    ensures Pow(a, n + 1) == Mul(a, Pow(a, n))
  {}

  lemma InverseIsInverse(a: element)
    requires a != 0
    ensures Mul(a, Inverse(a)) == 1
  {
    var e := Pow(a, 255);
    assert Inverse(a) == Pow(a, 254);
    hide *;
    PowNext(a, 254);
    PowNext(a, 255);
    Pow256(a);
    PowAdd(a, 255, 255);
    PowAdd(a, 256, 254);
    IdempotentIsTrivial(e);
    MulZero(a);
  }

  lemma DivIsSolution(a: element, b: element, x: element)
    requires b != 0
    ensures Mul(b, x) == a <==> x == Div(a, b)
  {
    assert Div(a, b) == Mul(a, Inverse(b));
    hide *;
    InverseIsInverse(b);
    MulAssoc(a, Inverse(b), b);
    MulComm(Inverse(b), b);
    MulOne(a);
    MulComm(b, Div(a, b));
    MulComm(b, x);
    MulAssoc(x, b, Inverse(b));
    MulOne(x);
  }

  // ---------- The loops of the source ----------

  method GfMul(x: element, y: element) returns (product: element)
    ensures product == Mul(x, y)
  {
    var a, b := x, y;
    product := 0;
    AddLaws(Mul(x, y), 0);
    while b != 0
      invariant Add(product, Mul(a, b)) == Mul(x, y)
      decreases b
    {
      ghost var before := product;
      HalfSmaller(b);
      MulByBit(a, b);
      AddAssoc(product, a, Mul(Double(a), Half(b)));
      if b & 1 != 0 {
        product := Add(product, a);
      }
      var carry := a & 0x80;
      ghost var doubled := Double(a);
      a := a << 1;
      if carry != 0 {
        a := a ^ 0x1d;
      }
      assert a == doubled;
      b := b >> 1;
    }
    MulZero(a);
    AddLaws(product, 0);
  }

  method GfPow(base: element, power: nat) returns (acc: element)
    ensures acc == Pow(base, power)
  {
    var value, exponent := base, power;
    acc := 1;
    MulOneLeft(Pow(base, power));
    while exponent != 0
      invariant Mul(acc, Pow(value, exponent)) == Pow(base, power)
    {
      PowSquare(value, exponent / 2);
      if exponent % 2 != 0 {
        PowNext(value, 2 * (exponent / 2));
        MulAssoc(acc, value, Pow(value, 2 * (exponent / 2)));
        acc := GfMul(acc, value);
      }
      value := GfMul(value, value);
      exponent := exponent / 2;
    }
    MulOne(acc);
  }

  method GfInv(value: element) returns (r: Result<element, FieldError>)
    ensures r.Err? <==> value == 0
    ensures r.Ok? ==> r.value == Inverse(value) && Mul(value, r.value) == 1
  {
    if value == 0 {
      return Err(InvertZero);
    }
    InverseIsInverse(value);
    var inverse := GfPow(value, 254);
    return Ok(inverse);
  }

  method GfDiv(lhs: element, rhs: element) returns (r: Result<element, FieldError>)
    ensures r.Err? <==> rhs == 0
    ensures r.Ok? ==> r.value == Div(lhs, rhs) && Mul(rhs, r.value) == lhs
  {
    var inverse := GfInv(rhs);
    if inverse.Err? {
      return inverse;
    }
    var quotient := GfMul(lhs, inverse.value);
    DivIsSolution(lhs, rhs, quotient);
    return Ok(quotient);
  }
}
