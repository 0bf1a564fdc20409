/** The (4, 2) erasure code over GF(2^8): encoding four equal-sized data shards into two parity shards, and recovering
    up to two erased data shards. */
module AudioFec {

  import opened Wrappers
  import opened ByteField
  import F = GaloisField

  const DATA_SHARDS: nat := 4
  const FEC_SHARDS: nat := 2

  const PARITY_MATRIX: seq<seq<byte>> := [[0x77, 0x40, 0x38, 0x0e], [0xc7, 0xa7, 0x0d, 0x6c]]

  type Bytes = seq<byte>
  type Shard = Option<Bytes>

  datatype FecError =
    | UnequalDataShards
    | ParityLengthMismatch
    | NoShards
    | InconsistentSizes
    | TooManyMissing
    | NotEnoughParity

  // ---------- One byte position ----------

  function Coefficient(row: nat, column: nat): byte
    requires row < FEC_SHARDS && column < DATA_SHARDS
  {
    PARITY_MATRIX[row][column]
  }

  // The contribution of the first n data bytes to one parity byte.
  function Dot(row: nat, bytes: seq<byte>, n: nat): byte
    requires row < FEC_SHARDS && n <= |bytes| == DATA_SHARDS
  {
    if n == 0 then 0 else Add(Dot(row, bytes, n - 1), Mul(Coefficient(row, n - 1), bytes[n - 1]))
  }

  lemma {:induction false} DotAgrees(row: nat, a: seq<byte>, b: seq<byte>, n: nat)
    requires row < FEC_SHARDS && n <= |a| == |b| == DATA_SHARDS
    requires forall j :: 0 <= j < n ==> a[j] == b[j]
    ensures Dot(row, a, n) == Dot(row, b, n)
  {
    if n != 0 {
      DotAgrees(row, a, b, n - 1);
    }
  }

  // Setting an erased position to x adds x times its coefficient.
  lemma {:induction false} DotUpdate(row: nat, bytes: seq<byte>, m: nat, x: byte, n: nat)
    requires row < FEC_SHARDS && m < n <= |bytes| == DATA_SHARDS && bytes[m] == 0
    ensures Dot(row, bytes[m := x], n) == Add(Dot(row, bytes, n), Mul(Coefficient(row, m), x))
  {
    hide Add, Mul, Coefficient;
    var c := Coefficient(row, n - 1);
    if n - 1 == m {
      DotAgrees(row, bytes[m := x], bytes, m);
      MulZero(c);
      AddLaws(Dot(row, bytes, m), 0);
    } else {
      var d, p, q := Dot(row, bytes, n - 1), Mul(Coefficient(row, m), x), Mul(c, bytes[n - 1]);
      DotUpdate(row, bytes, m, x, n - 1);
      AddAssoc(d, p, q);
      AddLaws(p, q);
      AddAssoc(d, q, p);
    }
  }

  // The 2x2 minor of the parity matrix on columns m0 and m1.
  function Minor(m0: nat, m1: nat): byte
    requires m0 < m1 < DATA_SHARDS
  {
    Add(Mul(Coefficient(0, m0), Coefficient(1, m1)), Mul(Coefficient(0, m1), Coefficient(1, m0)))
  }

  lemma CrossProducts()
    ensures Mul(0x77, 0xa7) == 0x1b && Mul(0x77, 0x0d) == 0x29 && Mul(0x77, 0x6c) == 0x94
    ensures Mul(0x40, 0xc7) == 0x97 && Mul(0x40, 0x0d) == 0x67 && Mul(0x40, 0x6c) == 0x02
    ensures Mul(0x38, 0xc7) == 0x5f && Mul(0x38, 0xa7) == 0xaa && Mul(0x38, 0x6c) == 0xc8
    ensures Mul(0x0e, 0xc7) == 0xde && Mul(0x0e, 0xa7) == 0xa4 && Mul(0x0e, 0x0d) == 0x46
  {
    hide F.Mul;
    F.MulIsEightTerms(0x77, 0xa7);
    F.MulIsEightTerms(0x77, 0x0d);
    F.MulIsEightTerms(0x77, 0x6c);
    F.MulIsEightTerms(0x40, 0xc7);
    F.MulIsEightTerms(0x40, 0x0d);
    F.MulIsEightTerms(0x40, 0x6c);
    F.MulIsEightTerms(0x38, 0xc7);
    F.MulIsEightTerms(0x38, 0xa7);
    F.MulIsEightTerms(0x38, 0x6c);
    F.MulIsEightTerms(0x0e, 0xc7);
    F.MulIsEightTerms(0x0e, 0xa7);
    F.MulIsEightTerms(0x0e, 0x0d);
  }

  lemma MinorsAreNonZero(m0: nat, m1: nat)
    requires m0 < m1 < DATA_SHARDS
    ensures Minor(m0, m1) != 0
  {
    hide Mul, Add;
    CrossProducts();
    var p, q := Mul(Coefficient(0, m0), Coefficient(1, m1)), Mul(Coefficient(0, m1), Coefficient(1, m0));
    SumIsZero(p, q);
  }

  lemma SumIsZero(p: byte, q: byte)
    ensures Add(p, q) == 0 <==> p == q
  {
    hide Add;
    AddLaws(p, q);
    AddLaws(q, 0);
    AddAssoc(p, q, q);
    AddLaws(q, q);
  }

  lemma CoefficientsAreNonZero(row: nat, m: nat)
    requires row < FEC_SHARDS && m < DATA_SHARDS
    ensures Coefficient(row, m) != 0
  {}

  lemma AddMove(p: byte, q: byte, r: byte)
    ensures Add(p, q) == r <==> q == Add(r, p)
  {
    hide *;
    AddLaws(p, q);
    AddAssoc(q, p, p);
    AddAssoc(r, p, p);
    AddLaws(p, r);
    AddLaws(q, p);
    AddLaws(r, p);
  }

  // The value that makes one parity equation hold when a single data byte is unknown.
  function SolveOne(row: nat, known: seq<byte>, m: nat, parity: byte): byte
    requires row < FEC_SHARDS && m < |known| == DATA_SHARDS
  {
    Div(Add(parity, Dot(row, known, DATA_SHARDS)), Coefficient(row, m))
  }

  lemma SolveOneIsUnique(row: nat, known: seq<byte>, m: nat, parity: byte, x: byte)
    requires row < FEC_SHARDS && m < |known| == DATA_SHARDS && known[m] == 0
    ensures Dot(row, known[m := x], DATA_SHARDS) == parity <==> x == SolveOne(row, known, m, parity)
  {
    hide Add, Mul, Div, Coefficient, Dot;
    var c, d := Coefficient(row, m), Dot(row, known, DATA_SHARDS);
    DotUpdate(row, known, m, x, DATA_SHARDS);
    AddMove(d, Mul(c, x), parity);
    CoefficientsAreNonZero(row, m);
    DivIsSolution(Add(parity, d), c, x);
  }

  // Multiplying the first equation by d and the second by b eliminates y.
  lemma Eliminate(a: byte, b: byte, c: byte, d: byte, x: byte, y: byte)
    ensures Add(Mul(Add(Mul(a, x), Mul(b, y)), d), Mul(b, Add(Mul(c, x), Mul(d, y))))
         == Mul(Add(Mul(a, d), Mul(b, c)), x)
  {
    hide *;
    var q := Mul(b, Mul(d, y));
    MulAddLeft(Mul(a, x), Mul(b, y), d);
    MulAddRight(b, Mul(c, x), Mul(d, y));
    MulAssoc(b, y, d);
    MulComm(y, d);
    MulAssoc(a, x, d);
    MulComm(x, d);
    MulAssoc(a, d, x);
    MulAssoc(b, c, x);
    AddSwap(Mul(Mul(a, x), d), q, Mul(b, Mul(c, x)), q);
    AddLaws(q, q);
    AddLaws(Add(Mul(Mul(a, x), d), Mul(b, Mul(c, x))), 0);
    MulAddLeft(Mul(a, d), Mul(b, c), x);
  }

  ghost predicate Solves(a: byte, b: byte, c: byte, d: byte, u: byte, v: byte, x: byte, y: byte) {
    Add(Mul(a, x), Mul(b, y)) == u && Add(Mul(c, x), Mul(d, y)) == v
  }

  // Cramer's rule, as two implications.
  lemma CramerForward(a: byte, b: byte, c: byte, d: byte, u: byte, v: byte, x: byte, y: byte)
    requires Solves(a, b, c, d, u, v, x, y)
    ensures Mul(Add(Mul(a, d), Mul(b, c)), x) == Add(Mul(u, d), Mul(b, v))
    ensures Mul(Add(Mul(a, d), Mul(b, c)), y) == Add(Mul(a, v), Mul(u, c))
  {
    hide Add, Mul;
    Eliminate(a, b, c, d, x, y);
    // The second half is the first with the roles of the unknowns exchanged.
    Eliminate(b, a, d, c, y, x);
    AddLaws(Mul(b, y), Mul(a, x));
    AddLaws(Mul(d, y), Mul(c, x));
    AddLaws(Mul(u, c), Mul(a, v));
    AddLaws(Mul(b, c), Mul(a, d));
  }

  lemma CramerBackward(a: byte, b: byte, c: byte, d: byte, u: byte, v: byte, x: byte, y: byte)
    requires Add(Mul(a, d), Mul(b, c)) != 0
    requires Mul(Add(Mul(a, d), Mul(b, c)), x) == Add(Mul(u, d), Mul(b, v))
    requires Mul(Add(Mul(a, d), Mul(b, c)), y) == Add(Mul(a, v), Mul(u, c))
    ensures Solves(a, b, c, d, u, v, x, y)
  {
    hide Add, Mul;
    var det := Add(Mul(a, d), Mul(b, c));
    ScaledEquation(det, a, b, x, y);
    ScaledEquation(det, c, d, x, y);
    Recombine(a, b, c, d, u, v);
    RecombineSecond(a, b, c, d, u, v);
    MulCancel(det, Add(Mul(a, x), Mul(b, y)), u);
    MulCancel(det, Add(Mul(c, x), Mul(d, y)), v);
  }

  lemma MulCancel(det: byte, p: byte, q: byte)
    requires det != 0 && Mul(det, p) == Mul(det, q)
    ensures p == q
  {
    hide *;
    DivIsSolution(Mul(det, p), det, p);
    DivIsSolution(Mul(det, p), det, q);
  }

  lemma ScaledEquation(det: byte, a: byte, b: byte, x: byte, y: byte)
    ensures Mul(det, Add(Mul(a, x), Mul(b, y))) == Add(Mul(a, Mul(det, x)), Mul(b, Mul(det, y)))
  {
    hide *;
    MulAddRight(det, Mul(a, x), Mul(b, y));
    Commute(det, a, x);
    Commute(det, b, y);
  }

  lemma Commute(p: byte, q: byte, r: byte)
    ensures Mul(p, Mul(q, r)) == Mul(q, Mul(p, r))
  {
    hide *;
    MulAssoc(p, q, r);
    MulComm(p, q);
    MulAssoc(q, p, r);
  }

  lemma Recombine(a: byte, b: byte, c: byte, d: byte, u: byte, v: byte)
    ensures Add(Mul(a, Add(Mul(u, d), Mul(b, v))), Mul(b, Add(Mul(a, v), Mul(u, c)))) == Mul(Add(Mul(a, d), Mul(b, c)), u)
  {
    hide *;
    var q := Mul(a, Mul(b, v));
    MulAddRight(a, Mul(u, d), Mul(b, v));
    MulAddRight(b, Mul(a, v), Mul(u, c));
    Commute(b, a, v);
    AddLaws(q, Mul(b, Mul(u, c)));
    AddSwap(Mul(a, Mul(u, d)), q, Mul(b, Mul(u, c)), q);
    AddLaws(q, q);
    AddLaws(Add(Mul(a, Mul(u, d)), Mul(b, Mul(u, c))), 0);
    MulComm(u, d);
    MulComm(u, c);
    MulAssoc(a, d, u);
    MulAssoc(b, c, u);
    MulAddLeft(Mul(a, d), Mul(b, c), u);
  }

  lemma RecombineSecond(a: byte, b: byte, c: byte, d: byte, u: byte, v: byte)
    ensures Add(Mul(c, Add(Mul(u, d), Mul(b, v))), Mul(d, Add(Mul(a, v), Mul(u, c)))) == Mul(Add(Mul(a, d), Mul(b, c)), v)
  {
    hide *;
    Recombine(d, c, b, a, v, u);
    // The same identity with the two equations exchanged.
    MulComm(u, d); MulComm(b, v); MulComm(a, v); MulComm(u, c);
    MulComm(d, u); MulComm(v, a); MulComm(c, u); MulComm(v, b);
    MulComm(d, a); MulComm(c, b);
    AddLaws(Mul(u, d), Mul(b, v));
    AddLaws(Mul(a, v), Mul(u, c));
    AddLaws(Mul(c, Add(Mul(u, d), Mul(b, v))), Mul(d, Add(Mul(a, v), Mul(u, c))));
  }

  // The values that make both parity equations hold when two data bytes are unknown.
  function SolveTwo(known: seq<byte>, m0: nat, m1: nat, parity0: byte, parity1: byte): (byte, byte)
    requires |known| == DATA_SHARDS && m0 < m1 < DATA_SHARDS
  {
    var a00, a01, a10, a11 := Coefficient(0, m0), Coefficient(0, m1), Coefficient(1, m0), Coefficient(1, m1);
    var b0, b1 := Add(parity0, Dot(0, known, DATA_SHARDS)), Add(parity1, Dot(1, known, DATA_SHARDS));
    (Div(Add(Mul(b0, a11), Mul(a01, b1)), Minor(m0, m1)), Div(Add(Mul(a00, b1), Mul(b0, a10)), Minor(m0, m1)))
  }

  lemma TwoUnknowns(row: nat, known: seq<byte>, m0: nat, m1: nat, x: byte, y: byte, parity: byte)
    requires row < FEC_SHARDS && m0 < m1 < |known| == DATA_SHARDS && known[m0] == 0 == known[m1]
    ensures Dot(row, known[m0 := x][m1 := y], DATA_SHARDS) == parity <==>
            Add(Mul(Coefficient(row, m0), x), Mul(Coefficient(row, m1), y)) == Add(parity, Dot(row, known, DATA_SHARDS))
  {
    hide Add, Mul, Coefficient, Dot;
    var d, p, q := Dot(row, known, DATA_SHARDS), Mul(Coefficient(row, m0), x), Mul(Coefficient(row, m1), y);
    DotUpdate(row, known, m0, x, DATA_SHARDS);
    DotUpdate(row, known[m0 := x], m1, y, DATA_SHARDS);
    AddAssoc(d, p, q);
    AddMove(d, Add(p, q), parity);
  }

  lemma SolveTwoSolves(known: seq<byte>, m0: nat, m1: nat, parity0: byte, parity1: byte)
    requires |known| == DATA_SHARDS && m0 < m1 < DATA_SHARDS && known[m0] == 0 == known[m1]
    ensures
      var (x, y) := SolveTwo(known, m0, m1, parity0, parity1);
      Dot(0, known[m0 := x][m1 := y], DATA_SHARDS) == parity0 &&
      Dot(1, known[m0 := x][m1 := y], DATA_SHARDS) == parity1
  {
    hide Add, Mul, Div, Coefficient, Dot;
    var a00, a01, a10, a11 := Coefficient(0, m0), Coefficient(0, m1), Coefficient(1, m0), Coefficient(1, m1);
    var b0, b1 := Add(parity0, Dot(0, known, DATA_SHARDS)), Add(parity1, Dot(1, known, DATA_SHARDS));
    var (x, y) := SolveTwo(known, m0, m1, parity0, parity1);
    MinorsAreNonZero(m0, m1);
    DivIsSolution(Add(Mul(b0, a11), Mul(a01, b1)), Minor(m0, m1), x);
    DivIsSolution(Add(Mul(a00, b1), Mul(b0, a10)), Minor(m0, m1), y);
    CramerBackward(a00, a01, a10, a11, b0, b1, x, y);
    TwoUnknowns(0, known, m0, m1, x, y, parity0);
    TwoUnknowns(1, known, m0, m1, x, y, parity1);
  }

  lemma SolveTwoIsUnique(known: seq<byte>, m0: nat, m1: nat, parity0: byte, parity1: byte, x: byte, y: byte)
    requires |known| == DATA_SHARDS && m0 < m1 < DATA_SHARDS && known[m0] == 0 == known[m1]
    requires Dot(0, known[m0 := x][m1 := y], DATA_SHARDS) == parity0
    requires Dot(1, known[m0 := x][m1 := y], DATA_SHARDS) == parity1
    ensures (x, y) == SolveTwo(known, m0, m1, parity0, parity1)
  {
    hide Add, Mul, Div, Coefficient, Dot;
    var a00, a01, a10, a11 := Coefficient(0, m0), Coefficient(0, m1), Coefficient(1, m0), Coefficient(1, m1);
    var b0, b1 := Add(parity0, Dot(0, known, DATA_SHARDS)), Add(parity1, Dot(1, known, DATA_SHARDS));
    TwoUnknowns(0, known, m0, m1, x, y, parity0);
    TwoUnknowns(1, known, m0, m1, x, y, parity1);
    CramerForward(a00, a01, a10, a11, b0, b1, x, y);
    MinorsAreNonZero(m0, m1);
    DivIsSolution(Add(Mul(b0, a11), Mul(a01, b1)), Minor(m0, m1), x);
    DivIsSolution(Add(Mul(a00, b1), Mul(b0, a10)), Minor(m0, m1), y);
  }

  // ---------- Whole shards ----------

  ghost predicate IsBlock(data: seq<Bytes>, len: nat) {
    |data| == DATA_SHARDS && forall j :: 0 <= j < DATA_SHARDS ==> |data[j]| == len
  }

  function Column(data: seq<Bytes>, k: nat): seq<byte>
    requires forall j :: 0 <= j < |data| ==> k < |data[j]|
  {
    seq(|data|, j requires 0 <= j < |data| => data[j][k])
  }

  function ParityRow(row: nat, data: seq<Bytes>, len: nat): Bytes
    requires row < FEC_SHARDS && IsBlock(data, len)
  {
    seq(len, k requires 0 <= k < len => Dot(row, Column(data, k), DATA_SHARDS))
  }

  // The positions of the present (or absent) shards, in order.
  function Positions(shards: seq<Shard>, present: bool): (r: seq<nat>)
    ensures forall i :: 0 <= i < |r| ==> r[i] < |shards| && shards[r[i]].Some? == present
    ensures forall k :: 0 <= k < |shards| && shards[k].Some? == present ==> k in r
    ensures forall i, j :: 0 <= i < j < |r| ==> r[i] < r[j]
    ensures |r| <= |shards|
  {
    if shards == [] then [] else
      var n := |shards| - 1;
      Positions(shards[..n], present) + if shards[n].Some? == present then [n] else []
  }

  lemma {:induction false} PositionsPartition(shards: seq<Shard>)
    ensures |Positions(shards, true)| + |Positions(shards, false)| == |shards|
  {
    if shards == [] {
    } else {
      PositionsPartition(shards[..|shards| - 1]);
    }
  }

  ghost predicate SizesAgree(shards: seq<Shard>, len: nat) {
    forall i :: 0 <= i < |shards| && shards[i].Some? ==> |shards[i].value| == len
  }

  // The length of the first present shard.
  function FirstLength(shards: seq<Shard>): Option<nat> {
    if shards == [] then None
    else if shards[0].Some? then Some(|shards[0].value|)
    else FirstLength(shards[1..])
  }

  ghost function RecoveryError(data: seq<Shard>, parity: seq<Shard>): Option<FecError> {
    if FirstLength(data + parity).None? then Some(NoShards)
    else if !SizesAgree(data + parity, FirstLength(data + parity).value) then Some(InconsistentSizes)
    else if |Positions(data, false)| > FEC_SHARDS then Some(TooManyMissing)
    else if |Positions(parity, true)| < |Positions(data, false)| then Some(NotEnoughParity)
    else None
  }

  function KnownColumn(data: seq<Shard>, k: nat): (r: seq<byte>)
  {
    seq(|data|, j requires 0 <= j < |data| => if data[j].Some? && k < |data[j].value| then data[j].value[k] else 0)
  }

  ghost predicate Recoverable(data: seq<Shard>, parity: seq<Shard>, len: nat) {
    |data| == DATA_SHARDS && |parity| == FEC_SHARDS && SizesAgree(data, len) && SizesAgree(parity, len) &&
    |Positions(data, false)| <= |Positions(parity, true)|
  }

  ghost function RestoredColumn(data: seq<Shard>, parity: seq<Shard>, len: nat, k: nat): (r: seq<byte>)
    requires Recoverable(data, parity, len) && k < len
    ensures |r| == DATA_SHARDS
  {
    hide Add, Mul, Div, Dot, Coefficient;
    var known, missing, rows := KnownColumn(data, k), Positions(data, false), Positions(parity, true);
    if |missing| == 0 then known
    else if |missing| == 1 then known[missing[0] := SolveOne(rows[0], known, missing[0], parity[rows[0]].value[k])]
    else
      assert rows[0] == 0 && rows[1] == 1 && missing[0] < missing[1];
      var (x, y) := SolveTwo(known, missing[0], missing[1], parity[0].value[k], parity[1].value[k]);
      known[missing[0] := x][missing[1] := y]
  }

  // The block that recovery produces.
  ghost function Restored(data: seq<Shard>, parity: seq<Shard>, len: nat): (r: seq<Bytes>)
    requires Recoverable(data, parity, len)
    ensures IsBlock(r, len)
  {
    seq(DATA_SHARDS, j requires 0 <= j < DATA_SHARDS =>
      seq(len, k requires 0 <= k < len => RestoredColumn(data, parity, len, k)[j]))
  }

  // A block that agrees with every received data shard and with the parity rows recovery uses.
  ghost predicate IsCompletion(full: seq<Bytes>, data: seq<Shard>, parity: seq<Shard>, len: nat)
    requires Recoverable(data, parity, len)
  {
    IsBlock(full, len) &&
    (forall j :: 0 <= j < DATA_SHARDS && data[j].Some? ==> full[j] == data[j].value) &&
    (forall i :: 0 <= i < |Positions(data, false)| ==>
      ParityRow(Positions(parity, true)[i], full, len) == parity[Positions(parity, true)[i]].value)
  }

  lemma BothRows(parity: seq<Shard>)
    requires |parity| == FEC_SHARDS && |Positions(parity, true)| >= 2
    ensures Positions(parity, true) == [0, 1]
    ensures parity[0].Some? && parity[1].Some?
  {
    var rows := Positions(parity, true);
    assert rows[0] < rows[1] < 2;
  }

  lemma ColumnOfRestored(data: seq<Shard>, parity: seq<Shard>, len: nat, k: nat)
    requires Recoverable(data, parity, len) && k < len
    ensures Column(Restored(data, parity, len), k) == RestoredColumn(data, parity, len, k)
  {
    hide RestoredColumn;
  }

  lemma RestoredColumnSolves(data: seq<Shard>, parity: seq<Shard>, len: nat, k: nat)
    requires Recoverable(data, parity, len) && k < len
    ensures
      var column := RestoredColumn(data, parity, len, k);
      (forall j :: 0 <= j < DATA_SHARDS && data[j].Some? ==> column[j] == data[j].value[k]) &&
      (forall i :: 0 <= i < |Positions(data, false)| ==>
        var row := Positions(parity, true)[i];
        Dot(row, column, DATA_SHARDS) == parity[row].value[k])
  {
    hide Add, Mul, Div, Dot, SolveOne, SolveTwo, Positions;
    var known, missing, rows := KnownColumn(data, k), Positions(data, false), Positions(parity, true);
    if |missing| == 0 {
    } else if |missing| == 1 {
      var p := parity[rows[0]].value[k];
      SolveOneIsUnique(rows[0], known, missing[0], p, SolveOne(rows[0], known, missing[0], p));
    } else {
      BothRows(parity);
      assert missing[0] < missing[1];
      SolveTwoSolves(known, missing[0], missing[1], parity[0].value[k], parity[1].value[k]);
    }
  }

  lemma RestoredIsCompletion(data: seq<Shard>, parity: seq<Shard>, len: nat)
    requires Recoverable(data, parity, len)
    ensures IsCompletion(Restored(data, parity, len), data, parity, len)
  {
    hide RestoredColumn, Dot;
    var full, rows := Restored(data, parity, len), Positions(parity, true);
    forall j | 0 <= j < DATA_SHARDS && data[j].Some?
      ensures full[j] == data[j].value
    {
      forall k | 0 <= k < len
        ensures full[j][k] == data[j].value[k]
      {
        RestoredColumnSolves(data, parity, len, k);
      }
    }
    forall i | 0 <= i < |Positions(data, false)|
      ensures ParityRow(rows[i], full, len) == parity[rows[i]].value
    {
      forall k | 0 <= k < len
        ensures ParityRow(rows[i], full, len)[k] == parity[rows[i]].value[k]
      {
        ColumnOfRestored(data, parity, len, k);
        RestoredColumnSolves(data, parity, len, k);
      }
    }
  }

  lemma CompletionColumnIsRestored(full: seq<Bytes>, data: seq<Shard>, parity: seq<Shard>, len: nat, k: nat)
    requires Recoverable(data, parity, len) && IsCompletion(full, data, parity, len) && k < len
    ensures Column(full, k) == RestoredColumn(data, parity, len, k)
  {
    hide Add, Mul, Div, Dot, SolveOne, SolveTwo, Positions;
    var known, missing, rows := KnownColumn(data, k), Positions(data, false), Positions(parity, true);
    var column := Column(full, k);
    assert forall i :: 0 <= i < |missing| ==>
      Dot(rows[i], column, DATA_SHARDS) == ParityRow(rows[i], full, len)[k] == parity[rows[i]].value[k];
    if |missing| == 0 {
    } else if |missing| == 1 {
      assert column == known[missing[0] := column[missing[0]]];
      SolveOneIsUnique(rows[0], known, missing[0], parity[rows[0]].value[k], column[missing[0]]);
    } else {
      BothRows(parity);
      assert missing[0] < missing[1];
      assert column == known[missing[0] := column[missing[0]]][missing[1] := column[missing[1]]];
      SolveTwoIsUnique(known, missing[0], missing[1], parity[0].value[k], parity[1].value[k],
        column[missing[0]], column[missing[1]]);
    }
  }

  // Whatever the parity bytes are, recovery produces the one and only completion.
  lemma CompletionIsUnique(full: seq<Bytes>, data: seq<Shard>, parity: seq<Shard>, len: nat)
    requires Recoverable(data, parity, len)
    ensures IsCompletion(full, data, parity, len) <==> full == Restored(data, parity, len)
  {
    RestoredIsCompletion(data, parity, len);
    if IsCompletion(full, data, parity, len) {
      hide RestoredColumn, Dot;
      forall j, k | 0 <= j < DATA_SHARDS && 0 <= k < len
        ensures full[j][k] == Restored(data, parity, len)[j][k]
      {
        CompletionColumnIsRestored(full, data, parity, len, k);
        assert full[j][k] == Column(full, k)[j];
      }
      forall j | 0 <= j < DATA_SHARDS
        ensures full[j] == Restored(data, parity, len)[j]
      {}
    }
  }

  // shards is what an erasure channel leaves of the originals.
  ghost predicate IsErasure(shards: seq<Shard>, originals: seq<Bytes>) {
    |shards| == |originals| && forall i :: 0 <= i < |shards| && shards[i].Some? ==> shards[i].value == originals[i]
  }

  ghost function EncodedParity(block: seq<Bytes>, len: nat): (r: seq<Bytes>)
    requires IsBlock(block, len)
  {
    [ParityRow(0, block, len), ParityRow(1, block, len)]
  }

  // Encoding followed by any erasure that leaves at least four of the six shards is undone exactly.
  lemma ErasureRoundTrip(block: seq<Bytes>, len: nat, data: seq<Shard>, parity: seq<Shard>)
    requires IsBlock(block, len) && IsErasure(data, block) && IsErasure(parity, EncodedParity(block, len))
    requires |Positions(data, true)| + |Positions(parity, true)| >= DATA_SHARDS
    ensures RecoveryError(data, parity).None? && Restored(data, parity, len) == block
  {
    ErasureIsRecoverable(block, len, data, parity);
    hide Dot, Positions, Restored, FirstLength;
    CompletionIsUnique(block, data, parity, len);
  }

  lemma ErasureIsRecoverable(block: seq<Bytes>, len: nat, data: seq<Shard>, parity: seq<Shard>)
    requires IsBlock(block, len) && IsErasure(data, block) && IsErasure(parity, EncodedParity(block, len))
    requires |Positions(data, true)| + |Positions(parity, true)| >= DATA_SHARDS
    ensures RecoveryError(data, parity).None? && Recoverable(data, parity, len)
  {
    hide Dot, FirstLength, Positions;
    PositionsPartition(data);
    FewPresent(parity);
    var i := SomePresent(data);
    assert (data + parity)[i].Some?;
    assert SizesAgree(data + parity, len);
    FirstLengthExists(data + parity, len, i);
  }

  lemma FewPresent(shards: seq<Shard>)
    ensures |Positions(shards, true)| <= |shards|
  {}

  lemma SomePresent(shards: seq<Shard>) returns (i: nat)
    requires |Positions(shards, true)| > 0
    ensures i < |shards| && shards[i].Some?
  {
    i := Positions(shards, true)[0];
  }

  lemma {:induction false} FirstLengthExists(shards: seq<Shard>, len: nat, i: nat)
    requires i < |shards| && shards[i].Some? && SizesAgree(shards, len)
    ensures FirstLength(shards) == Some(len)
  {
    if shards[0].None? {
      assert SizesAgree(shards[1..], len);
      FirstLengthExists(shards[1..], len, i - 1);
    }
  }

  // ---------- The methods of the source ----------

  method EncodeAudioBlock(data: seq<Bytes>, parity0: array<byte>, parity1: array<byte>)
    returns (r: Result<(), FecError>)
    requires |data| == DATA_SHARDS && parity0 != parity1
    modifies parity0, parity1
    ensures r.Ok? <==> IsBlock(data, |data[0]|) && parity0.Length == |data[0]| == parity1.Length
    ensures r.Err? ==> r.error == if IsBlock(data, |data[0]|) then ParityLengthMismatch else UnequalDataShards
    ensures r.Err? ==> parity0[..] == old(parity0[..]) && parity1[..] == old(parity1[..])
    ensures r.Ok? ==> [parity0[..], parity1[..]] == EncodedParity(data, |data[0]|)
  {
    hide Add, Mul, Dot, Coefficient;
    var blockLen := |data[0]|;
    if exists j :: 0 <= j < DATA_SHARDS && |data[j]| != blockLen {
      return Err(UnequalDataShards);
    }
    if parity0.Length != blockLen || parity1.Length != blockLen {
      return Err(ParityLengthMismatch);
    }
    for i := 0 to blockLen {
      parity0[i] := 0;
    }
    for i := 0 to blockLen {
      parity1[i] := 0;
    }
    for index := 0 to blockLen
      invariant forall k :: 0 <= k < index ==> parity0[k] == Dot(0, Column(data, k), DATA_SHARDS)
      invariant forall k :: 0 <= k < index ==> parity1[k] == Dot(1, Column(data, k), DATA_SHARDS)
    {
      var p0: byte, p1: byte := 0, 0;
      ghost var column := Column(data, index);
      DotStart(column);
      for shardIndex := 0 to DATA_SHARDS
        invariant p0 == Dot(0, column, shardIndex) && p1 == Dot(1, column, shardIndex)
        modifies {}
      {
        var value := data[shardIndex][index];
        var product0 := MulBytes(PARITY_MATRIX[0][shardIndex], value);
        var product1 := MulBytes(PARITY_MATRIX[1][shardIndex], value);
        DotStep(column, shardIndex);
        p0 := Add(p0, product0);
        p1 := Add(p1, product1);
      }
      parity0[index] := p0;
      parity1[index] := p1;
    }
    assert parity0[..] == ParityRow(0, data, blockLen);
    assert parity1[..] == ParityRow(1, data, blockLen);
    return Ok(());
  }

  lemma DotStart(column: seq<byte>)
    requires |column| == DATA_SHARDS
    ensures Dot(0, column, 0) == 0 == Dot(1, column, 0)
  {}

  lemma DotStep(column: seq<byte>, j: nat)
    requires j < |column| == DATA_SHARDS
    ensures Dot(0, column, j + 1) == Add(Dot(0, column, j), Mul(PARITY_MATRIX[0][j], column[j]))
    ensures Dot(1, column, j + 1) == Add(Dot(1, column, j), Mul(PARITY_MATRIX[1][j], column[j]))
  {}

  method ShardLen(data: seq<Shard>, parity: seq<Shard>) returns (r: Result<nat, FecError>)
    ensures r.Ok? <==> exists len :: FirstLength(data + parity) == Some(len) && SizesAgree(data + parity, len)
    ensures r.Ok? ==> FirstLength(data + parity) == Some(r.value)
    ensures r.Err? ==> r.error == if FirstLength(data + parity).None? then NoShards else InconsistentSizes
  {
    var len: Option<nat> := None;
    var shards := data + parity;
    for i := 0 to |shards|
      invariant len == FirstLength(shards[..i])
      invariant len.None? ==> forall k :: 0 <= k < i ==> shards[k].None?
      invariant len.Some? ==> FirstLength(shards) == len && SizesAgree(shards[..i], len.value)
    {
      FirstLengthStep(shards, i);
      match shards[i] {
        case None =>
        case Some(shard) =>
          if len.Some? && len.value != |shard| {
            return Err(InconsistentSizes);
          }
          if len.None? {
            len := Some(|shard|);
          }
      }
    }
    assert shards[..|shards|] == shards;
    return if len.Some? then Ok(len.value) else Err(NoShards);
  }

  lemma {:induction false} FirstLengthStep(shards: seq<Shard>, i: nat)
    requires i < |shards|
    ensures FirstLength(shards[..i + 1]) ==
            if FirstLength(shards[..i]).Some? then FirstLength(shards[..i])
            else if shards[i].Some? then Some(|shards[i].value|) else None
    ensures FirstLength(shards[..i + 1]).Some? ==> FirstLength(shards) == FirstLength(shards[..i + 1])
  {
    if i == 0 {
    } else {
      assert shards[..i + 1][1..] == shards[1..][..i] && shards[..i][1..] == shards[1..][..i - 1];
      FirstLengthStep(shards[1..], i - 1);
    }
  }

  // What recovery computes at one byte position of a single missing shard.
  lemma SingleErasureAt(data: seq<Shard>, parity: seq<Shard>, len: nat, k: nat)
    requires Recoverable(data, parity, len) && |Positions(data, false)| == 1 && k < len
    ensures
      var m, row := Positions(data, false)[0], Positions(parity, true)[0];
      Restored(data, parity, len)[m][k] ==
      Div(Add(parity[row].value[k], Dot(row, KnownColumn(data, k), DATA_SHARDS)), Coefficient(row, m))
  {
    hide Add, Mul, Div, Dot, Coefficient, Positions;
  }

  // The inner loop of both recoveries: the parity byte plus the contribution of every received data shard.
  method RightHandSide(row: nat, parityByte: byte, data: seq<Shard>, missing: seq<nat>, byteIndex: nat)
    returns (rhs: byte)
    requires row < FEC_SHARDS && |data| == DATA_SHARDS
    requires forall j :: 0 <= j < DATA_SHARDS && j !in missing ==> data[j].Some? && byteIndex < |data[j].value|
    requires forall j :: 0 <= j < DATA_SHARDS && j in missing ==> data[j].None?
    ensures rhs == Add(parityByte, Dot(row, KnownColumn(data, byteIndex), DATA_SHARDS))
  {
    hide Add, Mul, Dot, Coefficient;
    ghost var known := KnownColumn(data, byteIndex);
    rhs := parityByte;
    DotStart(known);
    AddLaws(parityByte, 0);
    for shardIndex := 0 to DATA_SHARDS
      invariant rhs == Add(parityByte, Dot(row, known, shardIndex))
    {
      DotTerm(row, known, shardIndex, parityByte);
      if shardIndex in missing {
        continue;
      }
      var product := MulBytes(Coefficient(row, shardIndex), data[shardIndex].value[byteIndex]);
      rhs := Add(rhs, product);
    }
  }

  // Precisely the present shards are outside the list of missing ones.
  lemma MissingCovers(data: seq<Shard>, parity: seq<Shard>, len: nat)
    requires Recoverable(data, parity, len)
    ensures forall j :: 0 <= j < DATA_SHARDS && j !in Positions(data, false) ==> data[j].Some? && |data[j].value| == len
    ensures forall j :: 0 <= j < DATA_SHARDS && j in Positions(data, false) ==> data[j].None?
  {}

  // The source's "singular" error sits in a branch that cannot be reached.
  method RecoverSingle(data: array<Shard>, missing: seq<nat>, rows: seq<nat>, parity: seq<Shard>, blockLen: nat)
    returns (r: Result<nat, FecError>)
    requires Recoverable(data[..], parity, blockLen)
    requires missing == Positions(data[..], false) && |missing| == 1 && rows == Positions(parity, true)
    modifies data
    ensures r == Ok(1)
    ensures data[..] == old(data[..])[missing[0] := Some(Restored(old(data[..]), parity, blockLen)[missing[0]])]
  {
    hide Add, Mul, Div, Dot, Coefficient, Restored, RestoredColumn, KnownColumn;
    var shards := data[..];
    var missingIdx, parityRow := missing[0], rows[0];
    var coeff := Coefficient(parityRow, missingIdx);
    CoefficientsAreNonZero(parityRow, missingIdx);
    if coeff == 0 {
      assert false;
    }
    MissingCovers(shards, parity, blockLen);
    var recovered := SolveSingles(shards, missing, parityRow, parity[parityRow].value, blockLen, coeff);
    SinglesAreRestored(shards, parity, blockLen, recovered);
    data[missingIdx] := Some(recovered);
    return Ok(1);
  }

  lemma SinglesAreRestored(data: seq<Shard>, parity: seq<Shard>, len: nat, recovered: Bytes)
    requires Recoverable(data, parity, len) && |Positions(data, false)| == 1 && |recovered| == len
    requires
      var m, row := Positions(data, false)[0], Positions(parity, true)[0];
      |parity[row].value| == len && forall k :: 0 <= k < len ==>
        recovered[k] == Div(Add(parity[row].value[k], Dot(row, KnownColumn(data, k), DATA_SHARDS)), Coefficient(row, m))
    ensures recovered == Restored(data, parity, len)[Positions(data, false)[0]]
  {
    hide Restored, Positions, Dot, Div, Add, Coefficient, KnownColumn;
    forall k | 0 <= k < len
      ensures recovered[k] == Restored(data, parity, len)[Positions(data, false)[0]][k]
    {
      SingleErasureAt(data, parity, len, k);
    }
  }

  method SolveSingles(shards: seq<Shard>, missing: seq<nat>, row: nat, parityBytes: Bytes, blockLen: nat, coeff: byte)
    returns (recovered: Bytes)
    requires |shards| == DATA_SHARDS && |missing| == 1 && missing[0] < DATA_SHARDS && row < FEC_SHARDS
    requires |parityBytes| == blockLen && coeff == Coefficient(row, missing[0]) && coeff != 0
    requires forall j :: 0 <= j < DATA_SHARDS && j !in missing ==> shards[j].Some? && |shards[j].value| == blockLen
    requires forall j :: 0 <= j < DATA_SHARDS && j in missing ==> shards[j].None?
    ensures |recovered| == blockLen
    ensures forall k :: 0 <= k < blockLen ==>
      recovered[k] == Div(Add(parityBytes[k], Dot(row, KnownColumn(shards, k), DATA_SHARDS)), Coefficient(row, missing[0]))
  {
    hide Add, Div, Dot, Coefficient;
    var bytes := new byte[blockLen];
    for byteIndex := 0 to blockLen
      invariant forall k :: 0 <= k < byteIndex ==>
        bytes[k] == Div(Add(parityBytes[k], Dot(row, KnownColumn(shards, k), DATA_SHARDS)), Coefficient(row, missing[0]))
      modifies bytes
    {
      var rhs := RightHandSide(row, parityBytes[byteIndex], shards, missing, byteIndex);
      var quotient := DivBytes(rhs, coeff);
      bytes[byteIndex] := quotient.value;
    }
    return bytes[..];
  }

  // One step of the accumulation of the right-hand side; an erased position contributes nothing.
  lemma DotTerm(row: nat, known: seq<byte>, j: nat, start: byte)
    requires row < FEC_SHARDS && j < |known| == DATA_SHARDS
    ensures Add(start, Dot(row, known, j + 1)) == Add(Add(start, Dot(row, known, j)), Mul(Coefficient(row, j), known[j]))
    ensures known[j] == 0 ==> Add(start, Dot(row, known, j + 1)) == Add(start, Dot(row, known, j))
  {
    hide Add, Mul, Coefficient;
    var d := Dot(row, known, j);
    AddAssoc(start, d, Mul(Coefficient(row, j), known[j]));
    MulZero(Coefficient(row, j));
    AddLaws(d, 0);
  }

  // What recovery computes at one byte position of two missing shards.
  lemma DoubleErasureAt(data: seq<Shard>, parity: seq<Shard>, len: nat, k: nat)
    requires Recoverable(data, parity, len) && |Positions(data, false)| == 2 && k < len
    ensures Positions(parity, true) == [0, 1] && parity[0].Some? && parity[1].Some?
    ensures |parity[0].value| == len == |parity[1].value|
    ensures
      var m0, m1 := Positions(data, false)[0], Positions(data, false)[1];
      m0 < m1 < DATA_SHARDS &&
      (Restored(data, parity, len)[m0][k], Restored(data, parity, len)[m1][k]) ==
      SolveTwo(KnownColumn(data, k), m0, m1, parity[0].value[k], parity[1].value[k])
  {
    hide Add, Mul, Div, Dot, Coefficient, SolveTwo, SolveOne;
    BothRows(parity);
  }

  method RecoverDouble(data: array<Shard>, missing: seq<nat>, rows: seq<nat>, parity: seq<Shard>, blockLen: nat)
    returns (r: Result<nat, FecError>)
    requires Recoverable(data[..], parity, blockLen)
    requires missing == Positions(data[..], false) && |missing| == 2 && rows == Positions(parity, true)
    modifies data
    ensures r == Ok(2)
    ensures
      var restored := Restored(old(data[..]), parity, blockLen);
      data[..] == old(data[..])[missing[0] := Some(restored[missing[0]])][missing[1] := Some(restored[missing[1]])]
  {
    hide Add, Mul, Div, Dot, Coefficient, Restored, RestoredColumn, KnownColumn;
    var shards := data[..];
    BothRows(parity);
    var first, second := missing[0], missing[1];
    assert first < second;
    var parity0, parity1 := parity[rows[0]].value, parity[rows[1]].value;
    var a00, a01 := Coefficient(rows[0], first), Coefficient(rows[0], second);
    var a10, a11 := Coefficient(rows[1], first), Coefficient(rows[1], second);
    var diagonal := MulBytes(a00, a11);
    var offDiagonal := MulBytes(a01, a10);
    var det := Add(diagonal, offDiagonal);
    MinorsAreNonZero(first, second);
    if det == 0 {
      assert false;
    }
    MissingCovers(shards, parity, blockLen);
    DoubleErasure(shards, parity, blockLen);
    var recovered0, recovered1 := SolvePairs(shards, missing, parity0, parity1, blockLen, det);
    PairsAreRestored(shards, parity, blockLen, recovered0, recovered1);
    data[first] := Some(recovered0);
    data[second] := Some(recovered1);
    return Ok(2);
  }

  lemma DoubleErasure(data: seq<Shard>, parity: seq<Shard>, len: nat)
    requires Recoverable(data, parity, len) && |Positions(data, false)| == 2
    ensures Positions(parity, true) == [0, 1] && parity[0].Some? && parity[1].Some?
    ensures |parity[0].value| == len == |parity[1].value|
  {
    hide Positions;
    BothRows(parity);
  }

  lemma PairsAreRestored(data: seq<Shard>, parity: seq<Shard>, len: nat, recovered0: Bytes, recovered1: Bytes)
    requires Recoverable(data, parity, len) && |Positions(data, false)| == 2 && |recovered0| == len == |recovered1|
    requires parity[0].Some? && parity[1].Some? && |parity[0].value| == len == |parity[1].value|
    requires
      var m0, m1 := Positions(data, false)[0], Positions(data, false)[1];
      forall k :: 0 <= k < len ==>
        (recovered0[k], recovered1[k]) == SolveTwo(KnownColumn(data, k), m0, m1, parity[0].value[k], parity[1].value[k])
    ensures
      var restored, missing := Restored(data, parity, len), Positions(data, false);
      recovered0 == restored[missing[0]] && recovered1 == restored[missing[1]]
  {
    hide Restored, Positions, SolveTwo, KnownColumn;
    var restored, missing := Restored(data, parity, len), Positions(data, false);
    forall k | 0 <= k < len
      ensures recovered0[k] == restored[missing[0]][k] && recovered1[k] == restored[missing[1]][k]
    {
      DoubleErasureAt(data, parity, len, k);
    }
  }

  method SolvePairs(shards: seq<Shard>, missing: seq<nat>, parity0: Bytes, parity1: Bytes, blockLen: nat, det: byte)
    returns (recovered0: Bytes, recovered1: Bytes)
    requires |shards| == DATA_SHARDS && |missing| == 2 && missing[0] < missing[1] < DATA_SHARDS
    requires |parity0| == blockLen == |parity1|
    requires forall j :: 0 <= j < DATA_SHARDS && j !in missing ==> shards[j].Some? && |shards[j].value| == blockLen
    requires forall j :: 0 <= j < DATA_SHARDS && j in missing ==> shards[j].None?
    requires det == Minor(missing[0], missing[1]) && det != 0
    ensures |recovered0| == blockLen == |recovered1|
    ensures forall k :: 0 <= k < blockLen ==>
      (recovered0[k], recovered1[k]) == SolveTwo(KnownColumn(shards, k), missing[0], missing[1], parity0[k], parity1[k])
  {
    hide SolveTwo, Minor;
    var bytes0, bytes1 := new byte[blockLen], new byte[blockLen];
    for byteIndex := 0 to blockLen
      invariant forall k :: 0 <= k < byteIndex ==>
        (bytes0[k], bytes1[k]) == SolveTwo(KnownColumn(shards, k), missing[0], missing[1], parity0[k], parity1[k])
      modifies bytes0, bytes1
    {
      bytes0[byteIndex], bytes1[byteIndex] :=
        SolvePair(shards, missing, parity0[byteIndex], parity1[byteIndex], byteIndex, det);
    }
    return bytes0[..], bytes1[..];
  }

  // One byte position of both missing shards.
  method SolvePair(shards: seq<Shard>, missing: seq<nat>, parity0: byte, parity1: byte, byteIndex: nat, det: byte)
    returns (x0: byte, x1: byte)
    requires |shards| == DATA_SHARDS && |missing| == 2 && missing[0] < missing[1] < DATA_SHARDS
    requires forall j :: 0 <= j < DATA_SHARDS && j !in missing ==> shards[j].Some? && byteIndex < |shards[j].value|
    requires forall j :: 0 <= j < DATA_SHARDS && j in missing ==> shards[j].None?
    requires det == Minor(missing[0], missing[1]) && det != 0
    ensures (x0, x1) == SolveTwo(KnownColumn(shards, byteIndex), missing[0], missing[1], parity0, parity1)
  {
    hide Add, Mul, Div, Dot, Coefficient, KnownColumn;
    var first, second := missing[0], missing[1];
    var a00, a01 := Coefficient(0, first), Coefficient(0, second);
    var a10, a11 := Coefficient(1, first), Coefficient(1, second);
    var b0 := RightHandSide(0, parity0, shards, missing, byteIndex);
    var b1 := RightHandSide(1, parity1, shards, missing, byteIndex);
    x0 := SolveRow(b0, a11, a01, b1, det);
    x1 := SolveRow(a00, b1, b0, a10, det);
  }

  // One component of Cramer's rule.
  method SolveRow(p: byte, q: byte, r: byte, s: byte, det: byte) returns (x: byte)
    requires det != 0
    ensures x == Div(Add(Mul(p, q), Mul(r, s)), det)
  {
    var left := MulBytes(p, q);
    var right := MulBytes(r, s);
    var quotient := DivBytes(Add(left, right), det);
    return quotient.value;
  }

  ghost function Values(shards: seq<Shard>): seq<Bytes>
    requires forall i :: 0 <= i < |shards| ==> shards[i].Some?
  {
    seq(|shards|, i requires 0 <= i < |shards| => shards[i].value)
  }

  // Fails exactly when too little has arrived or sizes disagree, and then changes nothing; otherwise every shard is
  // present afterwards and the shards form the one block consistent with everything received.
  method RecoverAudioBlock(data: array<Shard>, parity: seq<Shard>) returns (r: Result<nat, FecError>)
    requires data.Length == DATA_SHARDS && |parity| == FEC_SHARDS
    modifies data
    ensures r.Err? <==> RecoveryError(old(data[..]), parity).Some?
    ensures r.Err? ==> Some(r.error) == RecoveryError(old(data[..]), parity) && data[..] == old(data[..])
    ensures r.Ok? ==> r.value == |Positions(old(data[..]), false)|
    ensures r.Ok? ==> forall i :: 0 <= i < DATA_SHARDS ==> data[i].Some?
    ensures r.Ok? ==>
      var len := FirstLength(old(data[..]) + parity).value;
      Recoverable(old(data[..]), parity, len) &&
      forall full :: IsCompletion(full, old(data[..]), parity, len) <==> full == Values(data[..])
  {
    hide Add, Mul, Div, Dot, Coefficient, Restored, RestoredColumn, KnownColumn, FirstLength, IsCompletion, ParityRow, Positions;
    var shards := data[..];
    var blockLen :- ShardLen(shards, parity);
    SizesOfParts(shards, parity, blockLen);
    var missing := Positions(shards, false);
    if |missing| > FEC_SHARDS {
      return Err(TooManyMissing);
    }
    var available := Positions(parity, true);
    if |available| < |missing| {
      return Err(NotEnoughParity);
    }
    if |missing| == 0 {
      r := Ok(0);
    } else if |missing| == 1 {
      r := RecoverSingle(data, missing, available, parity, blockLen);
    } else {
      r := RecoverDouble(data, missing, available, parity, blockLen);
    }
    RestoredInPlace(shards, parity, blockLen, data[..]);
  }

  // Filling in the missing positions of the original shards yields the unique completion.
  lemma RestoredInPlace(shards: seq<Shard>, parity: seq<Shard>, len: nat, after: seq<Shard>)
    requires Recoverable(shards, parity, len)
    requires after == FilledIn(shards, Positions(shards, false), Restored(shards, parity, len))
    ensures forall i :: 0 <= i < DATA_SHARDS ==> after[i].Some?
    ensures Values(after) == Restored(shards, parity, len)
    ensures forall full :: IsCompletion(full, shards, parity, len) <==> full == Values(after)
  {
    hide Restored, RestoredColumn, IsCompletion, Positions;
    MissingCovers(shards, parity, len);
    RestoredKeepsReceived(shards, parity, len);
    FilledInValues(shards, Positions(shards, false), Restored(shards, parity, len));
    forall full
      ensures IsCompletion(full, shards, parity, len) <==> full == Restored(shards, parity, len)
    {
      CompletionIsUnique(full, shards, parity, len);
    }
  }

  function FilledIn(shards: seq<Shard>, missing: seq<nat>, restored: seq<Bytes>): (r: seq<Shard>)
    requires |shards| == |restored| == DATA_SHARDS && |missing| <= FEC_SHARDS
    requires forall i :: 0 <= i < |missing| ==> missing[i] < DATA_SHARDS
    ensures |r| == DATA_SHARDS
  {
    if |missing| == 0 then shards
    else if |missing| == 1 then shards[missing[0] := Some(restored[missing[0]])]
    else shards[missing[0] := Some(restored[missing[0]])][missing[1] := Some(restored[missing[1]])]
  }

  lemma FilledInValues(shards: seq<Shard>, missing: seq<nat>, restored: seq<Bytes>)
    requires |shards| == |restored| == DATA_SHARDS && |missing| <= FEC_SHARDS
    requires forall i :: 0 <= i < |missing| ==> missing[i] < DATA_SHARDS
    requires forall j :: 0 <= j < DATA_SHARDS && j !in missing ==> shards[j].Some? && shards[j].value == restored[j]
    ensures forall i :: 0 <= i < DATA_SHARDS ==> FilledIn(shards, missing, restored)[i] == Some(restored[i])
  {
    forall i | 0 <= i < DATA_SHARDS
      ensures FilledIn(shards, missing, restored)[i] == Some(restored[i])
    {
      if i in missing {
        assert i == missing[0] || i == missing[1];
      }
    }
  }

  lemma SizesOfParts(data: seq<Shard>, parity: seq<Shard>, len: nat)
    requires SizesAgree(data + parity, len)
    ensures SizesAgree(data, len) && SizesAgree(parity, len)
  {
    assert forall i :: 0 <= i < |data| ==> (data + parity)[i] == data[i];
    assert forall i :: 0 <= i < |parity| ==> (data + parity)[|data| + i] == parity[i];
  }

  lemma RestoredKeepsReceived(data: seq<Shard>, parity: seq<Shard>, len: nat)
    requires Recoverable(data, parity, len)
    ensures forall j :: 0 <= j < DATA_SHARDS && data[j].Some? ==> Restored(data, parity, len)[j] == data[j].value
  {
    hide Restored, Dot;
    RestoredIsCompletion(data, parity, len);
  }
}
