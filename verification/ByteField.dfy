/** The field operations on bytes as they are stored in buffers: integers below 256. Buffers of integers keep bit-vectors
    out of sequence and array reasoning; the field laws carry over unchanged. */
module ByteField {

  import opened Wrappers
  import F = GaloisField

  type byte = x: int | 0 <= x < 256

  function Bits(b: byte): F.element {
    b as bv8
  }

  function Value(e: F.element): byte {
    e as int
  }

  function Add(a: byte, b: byte): byte {
    Value(F.Add(Bits(a), Bits(b)))
  }

  function Mul(a: byte, b: byte): byte {
    Value(F.Mul(Bits(a), Bits(b)))
  }

  function Div(a: byte, b: byte): byte {
    Value(F.Div(Bits(a), Bits(b)))
  }

  lemma BitsOfValue(e: F.element)
    ensures Bits(Value(e)) == e
  {}

  function Nibble(b3: bool, b2: bool, b1: bool, b0: bool): int {
    (if b3 then 8 else 0) + (if b2 then 4 else 0) + (if b1 then 2 else 0) + (if b0 then 1 else 0)
  }

  lemma Digits(n: int) returns (b3: bool, b2: bool, b1: bool, b0: bool)
    requires 0 <= n < 16
    ensures n == Nibble(b3, b2, b1, b0)
  {
    b3 := n >= 8;
    var r3 := if b3 then n - 8 else n;
    b2 := r3 >= 4;
    var r2 := if b2 then r3 - 4 else r3;
    b1 := r2 >= 2;
    b0 := (if b1 then r2 - 2 else r2) >= 1;
  }

  lemma Assembled(b7: bool, b6: bool, b5: bool, b4: bool, b3: bool, b2: bool, b1: bool, b0: bool) returns (e: F.element)
    ensures e as int == 16 * Nibble(b7, b6, b5, b4) + Nibble(b3, b2, b1, b0)
  {
    e := (if b7 then 128 else 0) | (if b6 then 64 else 0) | (if b5 then 32 else 0) | (if b4 then 16 else 0) |
      (if b3 then 8 else 0) | (if b2 then 4 else 0) | (if b1 then 2 else 0) | (if b0 then 1 else 0);
  }

  // Every byte is the value of some bits, and values read back as their bits.
  lemma ValueOfBits(b: byte)
    ensures Value(Bits(b)) == b
  {
    hide Nibble;
    var b7, b6, b5, b4 := Digits(b / 16);
    var b3, b2, b1, b0 := Digits(b % 16);
    var e := Assembled(b7, b6, b5, b4, b3, b2, b1, b0);
    BitsOfValue(e);
  }

  lemma ZeroBits()
    ensures Bits(0) == 0 && Value(0) == 0
  {}

  lemma AddLaws(a: byte, b: byte)
    ensures Add(a, b) == Add(b, a)
    ensures Add(a, a) == 0
    ensures Add(a, 0) == a == Add(0, a)
  {
    hide F.Add, Bits, Value;
    F.AddLaws(Bits(a), Bits(b));
    ValueOfBits(a);
    ZeroBits();
  }

  lemma AddAssoc(a: byte, b: byte, c: byte)
    ensures Add(Add(a, b), c) == Add(a, Add(b, c))
  {
    hide F.Add, Bits, Value;
    F.AddAssoc(Bits(a), Bits(b), Bits(c));
    BitsOfValue(F.Add(Bits(a), Bits(b)));
    BitsOfValue(F.Add(Bits(b), Bits(c)));
  }

  lemma AddSwap(p: byte, q: byte, r: byte, s: byte)
    ensures Add(Add(p, q), Add(r, s)) == Add(Add(p, r), Add(q, s))
  {
    hide Add;
    AddAssoc(p, q, Add(r, s));
    AddAssoc(q, r, s);
    AddLaws(q, r);
    AddAssoc(r, q, s);
    AddAssoc(p, r, Add(q, s));
  }

  lemma MulZero(a: byte)
    ensures Mul(a, 0) == 0 == Mul(0, a)
  {
    hide F.Mul, Bits, Value;
    F.MulZero(Bits(a));
    ZeroBits();
  }

  lemma MulAddLeft(a: byte, b: byte, c: byte)
    ensures Mul(Add(a, b), c) == Add(Mul(a, c), Mul(b, c))
  {
    hide F.Add, F.Mul, Bits, Value;
    F.MulAddLeft(Bits(a), Bits(b), Bits(c));
    BitsOfValue(F.Add(Bits(a), Bits(b)));
    BitsOfValue(F.Mul(Bits(a), Bits(c)));
    BitsOfValue(F.Mul(Bits(b), Bits(c)));
  }

  lemma MulComm(a: byte, b: byte)
    ensures Mul(a, b) == Mul(b, a)
  {
    hide F.Mul, Bits, Value;
    F.MulComm(Bits(a), Bits(b));
  }

  lemma MulAddRight(a: byte, b: byte, c: byte)
    ensures Mul(a, Add(b, c)) == Add(Mul(a, b), Mul(a, c))
  {
    hide Add, Mul;
    MulAddLeft(b, c, a);
    MulComm(a, Add(b, c));
    MulComm(a, b);
    MulComm(a, c);
  }

  lemma MulAssoc(a: byte, b: byte, c: byte)
    ensures Mul(Mul(a, b), c) == Mul(a, Mul(b, c))
  {
    hide F.Mul, Bits, Value;
    F.MulAssoc(Bits(a), Bits(b), Bits(c));
    BitsOfValue(F.Mul(Bits(a), Bits(b)));
    BitsOfValue(F.Mul(Bits(b), Bits(c)));
  }

  // Division by a non-zero byte solves the linear equation, and nothing else does.
  lemma DivIsSolution(a: byte, b: byte, x: byte)
    requires b != 0
    ensures Mul(b, x) == a <==> x == Div(a, b)
  {
    hide F.Mul, F.Div, Bits, Value;
    ValueOfBits(a);
    ValueOfBits(b);
    ValueOfBits(x);
    ZeroBits();
    F.DivIsSolution(Bits(a), Bits(b), Bits(x));
    BitsOfValue(F.Mul(Bits(b), Bits(x)));
    BitsOfValue(F.Div(Bits(a), Bits(b)));
  }

  method MulBytes(a: byte, b: byte) returns (product: byte)
    ensures product == Mul(a, b)
  {
    var e := F.GfMul(Bits(a), Bits(b));
    return Value(e);
  }

  method DivBytes(a: byte, b: byte) returns (r: Result<byte, F.FieldError>)
    ensures r.Err? <==> b == 0
    ensures r.Ok? ==> r.value == Div(a, b)
  {
    ValueOfBits(b);
    ZeroBits();
    var e := F.GfDiv(Bits(a), Bits(b));
    return if e.Ok? then Ok(Value(e.value)) else Err(e.error);
  }
}
