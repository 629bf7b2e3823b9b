/**
 * Integer constants and their folding (model/IntConst.cc, model/ops.cc): 64 bits and two flags stand
 * for constants of every width.
 */
module IntConst {

  const TOP := 0x1_0000_0000_0000_0000
  const SIGN := 0x8000_0000_0000_0000

  type Word = n: int | 0 <= n < TOP

  /** The bits, `reqUnsigned` (only an unsigned type can hold the value) and `uneg` (the bits are a
      complement: all ones above the width the constant will have). */
  datatype IntConst = IntConst(val: Word, reqUnsigned: bool, uneg: bool)

  datatype Option<+T> = None | Some(value: T)

  /** The bits read as int64_t. */
  function Signed(v: Word): int {
    if v < SIGN then v else v - TOP
  }

  function Wrap(n: int): Word {
    n % TOP
  }

  // ----- Bits -----

  function Pow2(n: nat): (r: nat)
    ensures r > 0
  {
    if n == 0 then 1 else 2 * Pow2(n - 1)
  }

  function Ones(n: nat): nat {
    Pow2(n) - 1
  }

  datatype BitOp = Or | And | Xor

  function Bit(op: BitOp, x: int, y: int): (r: nat)
    ensures r <= 1
  {
    match op
    case Or => if x == 1 || y == 1 then 1 else 0
    case And => if x == 1 && y == 1 then 1 else 0
    case Xor => if x != y then 1 else 0
  }

  /** The operator on the low n bits of two numbers. */
  function Bits(op: BitOp, a: nat, b: nat, n: nat): nat {
    if n == 0 then 0 else Bit(op, a % 2, b % 2) + 2 * Bits(op, a / 2, b / 2, n - 1)
  }

  lemma {:induction false} BitsBound(op: BitOp, a: nat, b: nat, n: nat)
    ensures Bits(op, a, b, n) < Pow2(n)
    decreases n
  {
    if n > 0 {
      BitsBound(op, a / 2, b / 2, n - 1);
    }
  }

  lemma {:induction false} Pow2Adds(m: nat, n: nat)
    ensures Pow2(m + n) == Pow2(m) * Pow2(n)
    decreases m
  {
    if m > 0 {
      Pow2Adds(m - 1, n);
      var h, p := Pow2(m - 1), Pow2(n);
      MulAssoc(2, h, p);
      assert Pow2(m) == 2 * h && Pow2(m + n) == 2 * Pow2(m - 1 + n);
    }
  }

  lemma Pow2Values()
    ensures Pow2(8) == 0x100 && Pow2(16) == 0x1_0000 && Pow2(32) == 0x1_0000_0000 && Pow2(64) == TOP
  {
    assert Pow2(1) == 2;
    assert Pow2(2) == 4;
    assert Pow2(3) == 8;
    assert Pow2(4) == 16;
    Pow2Adds(4, 4);
    Pow2Adds(8, 8);
    Pow2Adds(16, 16);
    Pow2Adds(32, 32);
  }

  lemma SignedPowers()
    ensures Pow2(15) == 0x8000 && Pow2(31) == 0x8000_0000 && Pow2(63) == SIGN
  {
    Pow2Values();
    assert Pow2(16) == 2 * Pow2(15) && Pow2(32) == 2 * Pow2(31) && Pow2(64) == 2 * Pow2(63);
  }

  lemma MulMono(x: int, y: int, p: int)
    requires x <= y && p >= 0
    ensures x * p <= y * p
  {
  }

  lemma MulAssoc(x: int, y: int, z: int)
    ensures x * (y * z) == (x * y) * z
  {
  }

  function Div(a: nat, d: nat): (q: nat)
    requires d > 0
  {
    a / d
  }

  function Mod(a: nat, d: nat): (r: nat)
    requires d > 0
    ensures r < d
  {
    a % d
  }

  lemma DivMod(a: int, d: int)
    requires d > 0
    ensures a == (a / d) * d + a % d && 0 <= a % d < d
  {
  }

  /** Division with remainder is unique. */
  lemma Quotient(a: int, d: int, q: int, r: int)
    requires d > 0 && a == q * d + r && 0 <= r < d
    ensures a / d == q && a % d == r
  {
    var q', r' := a / d, a % d;
    DivMod(a, d);
    assert (q' + 1) * d == q' * d + d && (q + 1) * d == q * d + d;
    if q' < q {
      MulMono(q' + 1, q, d);
    } else if q < q' {
      MulMono(q + 1, q', d);
    }
  }

  /** The lowest bit apart. */
  lemma HalvesMod(a: nat, k: nat)
    requires k > 0
    ensures Mod(a, Pow2(k)) == a % 2 + 2 * Mod(a / 2, Pow2(k - 1)) && Div(a, Pow2(k)) == Div(a / 2, Pow2(k - 1))
  {
    var p, h := Pow2(k - 1), a / 2;
    var q, r := h / p, h % p;
    DivMod(h, p);
    MulAssoc(q, 2, p);
    assert a == q * (2 * p) + (a % 2 + 2 * r);
    Quotient(a, 2 * p, q, a % 2 + 2 * r);
  }

  /** An operator on n bits is that operator on the low k, and on the rest. */
  lemma {:induction false} BitsSplit(op: BitOp, a: nat, b: nat, n: nat, k: nat)
    requires k <= n
    ensures Mod(Bits(op, a, b, n), Pow2(k)) == Bits(op, Mod(a, Pow2(k)), Mod(b, Pow2(k)), k)
    ensures Div(Bits(op, a, b, n), Pow2(k)) == Bits(op, Div(a, Pow2(k)), Div(b, Pow2(k)), n - k)
    decreases k
  {
    hide Pow2, Div, Mod;
    if k == 0 {
      OneBelow(Bits(op, a, b, n));
      OneBelow(a);
      OneBelow(b);
    } else {
      HalvesMod(a, k);
      HalvesMod(b, k);
      var rest := Bits(op, a / 2, b / 2, n - 1);
      var all := Bits(op, a, b, n);
      HalvesMod(all, k);
      assert all % 2 == Bit(op, a % 2, b % 2) && all / 2 == rest;
      BitsSplit(op, a / 2, b / 2, n - 1, k - 1);
    }
  }

  lemma OneBelow(a: nat)
    ensures Mod(a, Pow2(0)) == 0 && Div(a, Pow2(0)) == a
  {
  }

  /** On all zeros and all ones the operator works as on single bits. */
  lemma {:induction false} BitsUniform(op: BitOp, x: bool, y: bool, n: nat)
    ensures Bits(op, if x then Ones(n) else 0, if y then Ones(n) else 0, n)
         == if Bit(op, if x then 1 else 0, if y then 1 else 0) == 1 then Ones(n) else 0
    decreases n
  {
    if n > 0 {
      BitsUniform(op, x, y, n - 1);
      assert Ones(n) == 2 * Ones(n - 1) + 1;
    }
  }

  // ----- Folding -----

  /** FOLDB: the operator on the bits and on the flags; reqUnsigned comes from the top bit. */
  function FoldBits(op: BitOp, a: IntConst, b: IntConst): IntConst {
    BitsBound(op, a.val, b.val, 64);
    Pow2Values();
    var v: Word := Bits(op, a.val, b.val, 64);
    IntConst(v, v >= SIGN, Bit(op, if a.uneg then 1 else 0, if b.uneg then 1 else 0) == 1)
  }

  datatype ArithOp = Add | Sub | Mul

  function Arith(op: ArithOp, a: int, b: int): int {
    match op
    case Add => a + b
    case Sub => a - b
    case Mul => a * b
  }

  /** FOLDA: signed arithmetic, modulo 2^64; the flags are dropped. */
  function FoldArith(op: ArithOp, a: IntConst, b: IntConst): IntConst {
    IntConst(Wrap(Arith(op, Signed(a.val), Signed(b.val))), false, false)
  }

  function FoldNeg(a: IntConst): IntConst {
    IntConst(Wrap(-Signed(a.val)), false, false)
  }

  function FoldBitNot(a: IntConst): IntConst {
    IntConst(TOP - 1 - a.val, a.reqUnsigned, !a.uneg)
  }

  // ----- Conversion -----

  datatype IntType = Int64 | UInt64 | Int32 | UInt32 | Int16 | UInt16 | UInt8

  /** The tests of IntConst::convert, with the conversions C++ does in them: in the uint16 test the bound
      is a 64-bit unsigned number, and in the uint32 test UINT32_MAX + 1 has wrapped to zero. */
  predicate Converts(c: IntConst, t: IntType) {
    match t
    case Int64 => !c.reqUnsigned
    case UInt64 => c.reqUnsigned || c.uneg || Signed(c.val) >= 0
    case Int32 => !(c.reqUnsigned || Signed(c.val) > 0x7FFF_FFFF || Signed(c.val) < -0x8000_0000)
    case Int16 => !(c.reqUnsigned || Signed(c.val) > 0x7FFF || Signed(c.val) < -0x8000)
    case UInt32 => !((c.uneg && (c.val < Wrap(-0) || Signed(c.val) >= 0)) || (!c.uneg && c.val > 0xFFFF_FFFF))
    case UInt16 => !((c.uneg && (c.val < Wrap(-0x1_0000) || Signed(c.val) >= 0)) || (!c.uneg && c.val > 0xFFFF))
    case UInt8 => !((c.uneg && (Signed(c.val) < -0x100 || Signed(c.val) >= 0)) || (!c.uneg && c.val > 0xFF))
  }

  /** The constant is one of w bits: above them all zeros, or all ones if it is unsigned-negative. */
  predicate Fits(c: IntConst, w: nat)
    requires w <= 64
  {
    Div(c.val, Pow2(w)) == if c.uneg then Ones(64 - w) else 0
  }

  lemma ExtremeQuotients(v: Word, p: nat, u: nat)
    requires p > 0 && u * p == TOP
    ensures Div(v, p) == 0 <==> v < p
    ensures Div(v, p) == u - 1 <==> v >= TOP - p
  {
    DivMod(v, p);
    assert (u - 1) * p == TOP - p;
    if v < p {
      Quotient(v, p, 0, v);
    }
    if v >= TOP - p {
      Quotient(v, p, u - 1, v - (TOP - p));
    }
  }

  /** The same from the bounds. */
  lemma FitsBounds(c: IntConst, w: nat)
    requires w <= 64
    ensures Fits(c, w) <==> if c.uneg then c.val >= TOP - Pow2(w) else c.val < Pow2(w)
  {
    hide Pow2, Div;
    Pow2Values();
    Pow2Adds(64 - w, w);
    ExtremeQuotients(c.val, Pow2(w), Pow2(64 - w));
  }

  /** What converts to the narrow unsigned types are exactly the constants of their width. */
  lemma NarrowConvertsIff(c: IntConst)
    ensures Converts(c, UInt8) <==> Fits(c, 8)
    ensures Converts(c, UInt16) <==> Fits(c, 16)
  {
    Pow2Values();
    FitsBounds(c, 8);
    FitsBounds(c, 16);
  }

  /** uint32 accepts every unsigned-negative constant, however large. */
  lemma UInt32ConvertsIff(c: IntConst)
    ensures Converts(c, UInt32) <==> if c.uneg then c.val >= SIGN else Fits(c, 32)
    ensures Fits(c, 32) ==> Converts(c, UInt32)
  {
    Pow2Values();
    FitsBounds(c, 32);
  }

  // ----- Closure -----

  /** Constants of w bits are closed under the bitwise operators, flag included, for every width. */
  lemma BitwiseFits(op: BitOp, a: IntConst, b: IntConst, w: nat)
    requires w <= 64 && Fits(a, w) && Fits(b, w)
    ensures Fits(FoldBits(op, a, b), w)
  {
    hide Pow2, Bits, Ones;
    BitsSplit(op, a.val, b.val, 64, w);
    BitsUniform(op, a.uneg, b.uneg, 64 - w);
  }

  lemma ComplementFits(a: IntConst, w: nat)
    requires w <= 64
    ensures Fits(FoldBitNot(a), w) <==> Fits(a, w)
  {
    hide Pow2, Fits;
    FitsBounds(a, w);
    FitsBounds(FoldBitNot(a), w);
  }

  /** So byte and uint16 constants stay convertible through any bitwise expression. */
  lemma NarrowClosed(op: BitOp, a: IntConst, b: IntConst)
    ensures Converts(a, UInt8) && Converts(b, UInt8) ==> Converts(FoldBits(op, a, b), UInt8)
    ensures Converts(a, UInt16) && Converts(b, UInt16) ==> Converts(FoldBits(op, a, b), UInt16)
    ensures Converts(FoldBitNot(a), UInt8) <==> Converts(a, UInt8)
    ensures Converts(FoldBitNot(a), UInt16) <==> Converts(a, UInt16)
  {
    hide Converts, Fits, FoldBits, FoldBitNot;
    NarrowConvertsIff(a);
    NarrowConvertsIff(b);
    NarrowConvertsIff(FoldBits(op, a, b));
    NarrowConvertsIff(FoldBitNot(a));
    ComplementFits(a, 8);
    ComplementFits(a, 16);
    if Fits(a, 8) && Fits(b, 8) {
      BitwiseFits(op, a, b, 8);
    }
    if Fits(a, 16) && Fits(b, 16) {
      BitwiseFits(op, a, b, 16);
    }
  }

  /** Two numbers of n bits have the exclusive or 0 only if they are equal. */
  lemma {:induction false} XorZeroIff(x: nat, y: nat, n: nat)
    requires x < Pow2(n) && y < Pow2(n)
    ensures Bits(Xor, x, y, n) == 0 <==> x == y
    decreases n
  {
    if n > 0 {
      XorZeroIff(x / 2, y / 2, n - 1);
    }
  }

  /** The top bit of a result is the operator on the operands' top bits. */
  lemma TopBit(op: BitOp, a: IntConst, b: IntConst)
    ensures FoldBits(op, a, b).val >= SIGN <==>
      Bit(op, if a.val >= SIGN then 1 else 0, if b.val >= SIGN then 1 else 0) == 1
  {
    hide Pow2, Bits;
    HalvesOfTop(a.val);
    HalvesOfTop(b.val);
    HalvesOfTop(FoldBits(op, a, b).val);
    BitsSplit(op, a.val, b.val, 64, 63);
    OneBit(op, Div(a.val, Pow2(63)), Div(b.val, Pow2(63)));
  }

  lemma HalvesOfTop(v: Word)
    ensures Div(v, Pow2(63)) == if v >= SIGN then 1 else 0
  {
    SignedPowers();
    ExtremeQuotients(v, Pow2(63), 2);
  }

  lemma OneBit(op: BitOp, x: nat, y: nat)
    requires x <= 1 && y <= 1
    ensures Bits(op, x, y, 1) == Bit(op, x, y)
  {
  }

  lemma HighHalf(v: Word)
    ensures Div(v, Pow2(32)) < Pow2(32)
  {
    Pow2Values();
  }

  /** Constants that convert to uint32 keep converting through a bitwise operator except for one case: the
      exclusive or of two complements that differ above the low 32 bits.  A complement converts exactly
      if the constant has 32 bits. */
  lemma UInt32ClosedIff(op: BitOp, a: IntConst, b: IntConst)
    requires Converts(a, UInt32) && Converts(b, UInt32)
    ensures Converts(FoldBits(op, a, b), UInt32) <==>
      !(op.Xor? && a.uneg && b.uneg && Div(a.val, Pow2(32)) != Div(b.val, Pow2(32)))
    ensures Converts(FoldBitNot(a), UInt32) <==> Fits(a, 32)
  {
    hide Bits, Pow2, Div, Converts;
    var c := FoldBits(op, a, b);
    UInt32ConvertsIff(a);
    UInt32ConvertsIff(b);
    UInt32ConvertsIff(c);
    TopBit(op, a, b);
    BitsSplit(op, a.val, b.val, 64, 32);
    HighHalf(a.val);
    HighHalf(b.val);
    XorZeroIff(Div(a.val, Pow2(32)), Div(b.val, Pow2(32)), 32);
    AndZero(Div(a.val, Pow2(32)), 32);
    AndZero(Div(b.val, Pow2(32)), 32);
    if !a.uneg && !b.uneg {
      BitwiseFits(op, a, b, 32);
    }
    UInt32ConvertsIff(FoldBitNot(a));
    ComplementFits(a, 32);
    ComplementTop(a);
  }

  /** A complement in its own width has its top bit set. */
  lemma ComplementTop(a: IntConst)
    ensures Fits(a, 32) && a.uneg ==> a.val >= SIGN
    ensures Fits(a, 32) && !a.uneg ==> FoldBitNot(a).val >= SIGN
  {
    Pow2Values();
    FitsBounds(a, 32);
  }

  lemma {:induction false} AndZero(x: nat, n: nat)
    ensures Bits(And, x, 0, n) == 0 && Bits(And, 0, x, n) == 0
    decreases n
  {
    if n > 0 {
      AndZero(x / 2, n - 1);
    }
  }

  /** So uint32 is not closed: ~0x1_0000_0000 ^ ~0. */
  lemma UInt32NotClosed()
    returns (a: IntConst, b: IntConst)
    ensures Converts(a, UInt32) && Converts(b, UInt32) && !Converts(FoldBits(Xor, a, b), UInt32)
  {
    hide Bits, Pow2, FoldBits;
    a := IntConst(TOP - 1 - 0x1_0000_0000, false, true);
    b := IntConst(TOP - 1, false, true);
    Pow2Values();
    UInt32ClosedIff(Xor, a, b);
  }

  // ----- Agreement with narrow arithmetic -----

  lemma ModMod(n: int, w: nat)
    requires w <= 64
    ensures Wrap(n) % Pow2(w) == n % Pow2(w)
  {
    hide Pow2;
    Pow2Values();
    Pow2Adds(64 - w, w);
    var p, u, q := Pow2(w), Pow2(64 - w), n / TOP;
    DivMod(n, TOP);
    MulAssoc(q, u, p);
    Congruent(n, Wrap(n), q * u, p);
  }

  lemma Congruent(a: int, b: int, k: int, p: int)
    requires p > 0 && a == k * p + b
    ensures a % p == b % p
  {
    var q, r := b / p, b % p;
    assert a == (k + q) * p + r by { assert (k + q) * p == k * p + q * p; }
    Quotient(a, p, k + q, r);
  }

  lemma AddCongruent(x: int, s: int, y: int, t: int, p: int)
    requires p > 0
    ensures (x * p + s + (y * p + t)) % p == (s + t) % p
    ensures (x * p + s - (y * p + t)) % p == (s - t) % p
  {
    var a, b := x * p, y * p;
    Distributes(x, y, p);
    Congruent(a + s + (b + t), s + t, x + y, p);
    Congruent(a + s - (b + t), s - t, x - y, p);
  }

  lemma Distributes(x: int, y: int, p: int)
    ensures (x + y) * p == x * p + y * p && (x - y) * p == x * p - y * p
  {
  }

  lemma MulCongruent(x: int, s: int, y: int, t: int, p: int)
    requires p > 0
    ensures ((x * p + s) * (y * p + t)) % p == (s * t) % p
  {
    var b := y * p + t;
    var k := x * b + s * y;
    assert (x * p + s) * b == x * p * b + s * b;
    assert s * b == s * (y * p) + s * t;
    MulAssoc(s, y, p);
    MulAssoc(x, p, b);
    MulAssoc(x, b, p);
    assert p * b == b * p;
    assert k * p == x * b * p + s * y * p;
    Congruent((x * p + s) * b, s * t, k, p);
  }

  lemma ArithCongruent(op: ArithOp, a: int, b: int, p: int)
    requires p > 0
    ensures Arith(op, a, b) % p == Arith(op, a % p, b % p) % p
  {
    DivMod(a, p);
    DivMod(b, p);
    AddCongruent(a / p, a % p, b / p, b % p, p);
    MulCongruent(a / p, a % p, b / p, b % p, p);
  }

  lemma SignedMod(v: Word, w: nat)
    requires w <= 64
    ensures Signed(v) % Pow2(w) == v % Pow2(w)
  {
    ModMod(Signed(v), w);
  }

  /** The low w bits of a folded sum, difference or product are the w-bit operation's. */
  lemma ArithLowBits(op: ArithOp, a: IntConst, b: IntConst, w: nat)
    requires w <= 64
    ensures FoldArith(op, a, b).val % Pow2(w) == Arith(op, a.val % Pow2(w), b.val % Pow2(w)) % Pow2(w)
  {
    hide Pow2;
    ModMod(Arith(op, Signed(a.val), Signed(b.val)), w);
    ArithCongruent(op, Signed(a.val), Signed(b.val), Pow2(w));
    SignedMod(a.val, w);
    SignedMod(b.val, w);
  }

  /** The low w bits of a folded bitwise operation are the w-bit operation's. */
  lemma BitwiseLowBits(op: BitOp, a: IntConst, b: IntConst, w: nat)
    requires w <= 64
    ensures Mod(FoldBits(op, a, b).val, Pow2(w)) == Bits(op, Mod(a.val, Pow2(w)), Mod(b.val, Pow2(w)), w)
  {
    BitsSplit(op, a.val, b.val, 64, w);
  }

  lemma NegLowBits(a: IntConst, w: nat)
    requires w <= 64
    ensures FoldNeg(a).val % Pow2(w) == (Pow2(w) - a.val % Pow2(w)) % Pow2(w)
  {
    hide Pow2;
    var p := Pow2(w);
    ModMod(-Signed(a.val), w);
    SignedMod(a.val, w);
    DivMod(Signed(a.val), p);
    var x, s := Signed(a.val) / p, a.val % p;
    assert (-x - 1) * p == -(x * p) - p;
    Congruent(-Signed(a.val), p - s, -x - 1, p);
  }

  lemma ComplementLowBits(a: IntConst, w: nat)
    requires w <= 64
    ensures FoldBitNot(a).val % Pow2(w) == Pow2(w) - 1 - a.val % Pow2(w)
  {
    hide Pow2;
    var p, u := Pow2(w), Pow2(64 - w);
    Pow2Values();
    Pow2Adds(64 - w, w);
    DivMod(a.val, p);
    var y, s := a.val / p, a.val % p;
    assert (u - 1 - y) * p == u * p - p - y * p;
    Quotient(TOP - 1 - a.val, p, u - 1 - y, p - 1 - s);
  }

  // ----- Signed types -----

  /** A bitwise result converts to a signed type of w + 1 bits if and only if the operands' bits from w up
      give 0: it is taken as unsigned, even where both operands are signed. */
  lemma BitwiseToSignedIff(op: BitOp, a: IntConst, b: IntConst)
    ensures var c := FoldBits(op, a, b);
      && (Converts(c, Int64) <==> Bits(op, Div(a.val, Pow2(63)), Div(b.val, Pow2(63)), 1) == 0)
      && (Converts(c, Int32) <==> Bits(op, Div(a.val, Pow2(31)), Div(b.val, Pow2(31)), 33) == 0)
      && (Converts(c, Int16) <==> Bits(op, Div(a.val, Pow2(15)), Div(b.val, Pow2(15)), 49) == 0)
  {
    hide Bits, Pow2, Div;
    var c := FoldBits(op, a, b);
    SignedBounds(c.val);
    BitsSplit(op, a.val, b.val, 64, 63);
    BitsSplit(op, a.val, b.val, 64, 31);
    BitsSplit(op, a.val, b.val, 64, 15);
  }

  lemma SignedBounds(v: Word)
    ensures Div(v, Pow2(63)) == 0 <==> v < SIGN
    ensures Div(v, Pow2(31)) == 0 <==> v < 0x8000_0000
    ensures Div(v, Pow2(15)) == 0 <==> v < 0x8000
  {
    hide Div;
    SignedPowers();
    ExtremeQuotients(v, Pow2(63), 2);
    ExtremeQuotients(v, Pow2(31), 0x2_0000_0000);
    ExtremeQuotients(v, Pow2(15), 0x2_0000_0000_0000);
  }

  /** So for operands that convert themselves the result does if and only if it is not negative. */
  lemma SignedClosedIff(op: BitOp, a: IntConst, b: IntConst, t: IntType)
    requires t in {Int64, Int32, Int16} && Converts(a, t) && Converts(b, t)
    ensures Converts(FoldBits(op, a, b), t) <==>
      Bit(op, if a.val >= SIGN then 1 else 0, if b.val >= SIGN then 1 else 0) == 0
  {
    hide Bits, Pow2, Div;
    var w := if t == Int64 then 63 else if t == Int32 then 31 else 15;
    BitwiseToSignedIff(op, a, b);
    UniformAbove(a, t, w);
    UniformAbove(b, t, w);
    BitsUniform(op, a.val >= SIGN, b.val >= SIGN, 64 - w);
    OnesSome(64 - w);
  }

  lemma UniformAbove(a: IntConst, t: IntType, w: nat)
    requires Converts(a, t) && (t, w) in {(Int64, 63), (Int32, 31), (Int16, 15)}
    ensures Div(a.val, Pow2(w)) == if a.val >= SIGN then Ones(64 - w) else 0
  {
    hide Div;
    Pow2Values();
    SignedPowers();
    Pow2Adds(64 - w, w);
    ExtremeQuotients(a.val, Pow2(w), Pow2(64 - w));
  }

  lemma OnesSome(n: nat)
    requires n > 0
    ensures Ones(n) > 0
  {
  }

  /** -6 | 1 is -5, but converts to no signed type. */
  lemma NegativeOrIsNotSigned()
    ensures var a, b := FoldNeg(IntConst(6, false, false)), IntConst(1, false, false);
      && Converts(a, Int16) && Converts(b, Int16) && Signed(FoldBits(Or, a, b).val) == -5
      && forall t :: t in {Int64, Int32, Int16} ==> !Converts(FoldBits(Or, a, b), t)
  {
    hide Bits, Pow2, Converts;
    var a, b := FoldNeg(IntConst(6, false, false)), IntConst(1, false, false);
    assert Converts(a, Int16) && Converts(b, Int16) && Converts(a, Int32) && Converts(b, Int32)
        && Converts(a, Int64) && Converts(b, Int64) by { SmallConverts(a, b); }
    SignedClosedIff(Or, a, b, Int16);
    SignedClosedIff(Or, a, b, Int32);
    SignedClosedIff(Or, a, b, Int64);
    OrOne(a.val, 64);
  }

  lemma SmallConverts(a: IntConst, b: IntConst)
    requires a == FoldNeg(IntConst(6, false, false)) && b == IntConst(1, false, false)
    ensures Converts(a, Int16) && Converts(b, Int16) && Converts(a, Int32) && Converts(b, Int32)
         && Converts(a, Int64) && Converts(b, Int64)
  {
  }

  lemma OrOne(v: Word, n: nat)
    requires n == 64 && v % 2 == 0
    ensures Bits(Or, v, 1, n) == v + 1
  {
    hide Pow2;
    SignedPowers();
    OrNothing(v / 2, 63);
  }

  lemma {:induction false} OrNothing(v: nat, n: nat)
    requires v < Pow2(n)
    ensures Bits(Or, v, 0, n) == v
    decreases n
  {
    if n > 0 {
      OrNothing(v / 2, n - 1);
    }
  }

  // ----- What folded arithmetic converts to -----

  /** A folded sum, difference, product or negation converts to a type if and only if its signed value is
      one of the type; to int64 always. */
  lemma ArithConvertsIff(op: ArithOp, a: IntConst, b: IntConst)
    ensures forall c :: c == FoldArith(op, a, b) || c == FoldNeg(a) ==>
      && Converts(c, Int64)
      && (Converts(c, UInt64) <==> 0 <= Signed(c.val))
      && (Converts(c, Int32) <==> -0x8000_0000 <= Signed(c.val) <= 0x7FFF_FFFF)
      && (Converts(c, UInt32) <==> 0 <= Signed(c.val) <= 0xFFFF_FFFF)
      && (Converts(c, Int16) <==> -0x8000 <= Signed(c.val) <= 0x7FFF)
      && (Converts(c, UInt16) <==> 0 <= Signed(c.val) <= 0xFFFF)
      && (Converts(c, UInt8) <==> 0 <= Signed(c.val) <= 0xFF)
  {
  }

  /** The signed value is kept by the 64 bits if and only if it is an int64. */
  lemma SignedWrap(n: int)
    ensures Signed(Wrap(n)) == n <==> -SIGN <= n < SIGN
  {
    DivMod(n, TOP);
    if -SIGN <= n < SIGN {
      Quotient(n, TOP, if n < 0 then -1 else 0, if n < 0 then n + TOP else n);
    }
  }

  lemma SmallProduct(x: int, y: int)
    requires -0x8000_0000 <= x <= 0x7FFF_FFFF && -0x8000_0000 <= y <= 0x7FFF_FFFF
    ensures -SIGN <= x * y < SIGN
  {
    var k := 0x8000_0000;
    var u, v := if x < 0 then -x else x, if y < 0 then -y else y;
    MulMono(u, k, v);
    MulMono(v, k, k);
    assert u * v == x * y || u * v == -(x * y);
    assert k * v == v * k;
  }

  /** For operands that convert to a signed type themselves, x and y being their values: below 64 bits the
      folded constant has exactly the value x + y (x - y, x * y) and converts if and only if that value is
      one of the type; as an int64 it always converts, and has that value if and only if it is an int64. */
  lemma ArithIsExactIff(op: ArithOp, a: IntConst, b: IntConst, t: IntType)
    requires t in {Int64, Int32, Int16} && Converts(a, t) && Converts(b, t)
    ensures var c, x, y := FoldArith(op, a, b), Signed(a.val), Signed(b.val);
      var exact := match op case Add => x + y case Sub => x - y case Mul => x * y;
      match t
      case Int16 => Signed(c.val) == exact && (Converts(c, Int16) <==> -0x8000 <= exact <= 0x7FFF)
      case Int32 => Signed(c.val) == exact && (Converts(c, Int32) <==> -0x8000_0000 <= exact <= 0x7FFF_FFFF)
      case _ => Converts(c, Int64) && (Signed(c.val) == exact <==> -SIGN <= exact < SIGN)
  {
    hide Wrap;
    var x, y := Signed(a.val), Signed(b.val);
    SignedWrap(x + y);
    SignedWrap(x - y);
    SignedWrap(x * y);
    if t != Int64 {
      SmallProduct(x, y);
    }
  }

  lemma NegIsExactIff(a: IntConst)
    ensures Signed(FoldNeg(a).val) == -Signed(a.val) <==> Signed(a.val) != -SIGN
  {
    SignedWrap(-Signed(a.val));
  }

  /** A complement has the value -1 - x and converts to the signed types its operand converts to. */
  lemma ComplementConvertsIff(a: IntConst)
    ensures Signed(FoldBitNot(a).val) == -1 - Signed(a.val)
    ensures forall t :: t in {Int64, Int32, Int16} ==> (Converts(FoldBitNot(a), t) <==> Converts(a, t))
    ensures Converts(FoldBitNot(a), UInt64) <==> !a.uneg || a.reqUnsigned || Signed(a.val) < 0
  {
  }

  /** A folded quotient or remainder by unsigned division converts to a type if and only if its value is
      one of the type, and a folded bitwise result always converts to uint64. */
  lemma UnsignedConvertsIff(rem: bool, op: BitOp, a: IntConst, b: IntConst)
    ensures Converts(FoldBits(op, a, b), UInt64)
    ensures FoldUnsigned(rem, a, b).None? <==> b.val == 0
    ensures b.val != 0 ==> var c := FoldUnsigned(rem, a, b).value;
      && Converts(c, UInt64)
      && (Converts(c, Int64) <==> c.val < SIGN)
      && (Converts(c, Int32) <==> c.val <= 0x7FFF_FFFF)
      && (Converts(c, UInt32) <==> c.val <= 0xFFFF_FFFF)
      && (Converts(c, Int16) <==> c.val <= 0x7FFF)
      && (Converts(c, UInt16) <==> c.val <= 0xFFFF)
      && (Converts(c, UInt8) <==> c.val <= 0xFF)
  {
    hide Bits, Divide, Pow2;
  }

  // ----- Unsigned division -----

  /** FOLDDIV on the bits as unsigned numbers. */
  function FoldUnsigned(rem: bool, a: IntConst, b: IntConst): Option<IntConst> {
    if b.val == 0 then None
    else
      var v: Word := if rem then a.val % b.val else Divide(a.val, b.val);
      Some(IntConst(v, v > SIGN - 1, false))
  }

  function Divide(a: Word, b: Word): (q: Word)
    requires b > 0
    ensures q <= a
  {
    DivMod(a, b);
    MulMono(1, b, a / b);
    a / b
  }

  /** By a plain divisor of w bits, the remainder of a constant of w bits is a plain constant of w bits; it
      is the w-bit remainder if and only if the dividend is plain too or the divisor divides the bits that
      a complement has above its width. */
  lemma RemainderIff(a: IntConst, b: IntConst, w: nat)
    requires w <= 64 && Fits(a, w) && Fits(b, w) && !b.uneg && b.val != 0
    ensures var c := FoldUnsigned(true, a, b).value;
      && Fits(c, w) && !c.uneg
      && (c.val == Mod(a.val, Pow2(w)) % b.val <==> !a.uneg || (TOP - Pow2(w)) % b.val == 0)
  {
    hide Pow2, Fits;
    FitsBounds(b, w);
    FitsBounds(FoldUnsigned(true, a, b).value, w);
    LowPart(a, w);
    RemainderShift(a.val - Mod(a.val, Pow2(w)), Mod(a.val, Pow2(w)), b.val);
  }

  /** Quotients of plain constants are the w-bit ones; those of complements never are, below 64 bits. */
  lemma QuotientIff(a: IntConst, b: IntConst, w: nat)
    requires w <= 64 && Fits(a, w) && Fits(b, w) && !b.uneg && b.val != 0
    ensures FoldUnsigned(false, a, b).value.val == Div(Mod(a.val, Pow2(w)), b.val) <==> !a.uneg || w == 64
    ensures !a.uneg ==> Fits(FoldUnsigned(false, a, b).value, w)
  {
    hide Pow2, Fits;
    FitsBounds(a, w);
    FitsBounds(b, w);
    FitsBounds(FoldUnsigned(false, a, b).value, w);
    LowPart(a, w);
    HalfOfTop(w);
    var low := Mod(a.val, Pow2(w));
    QuotientGrows(a.val - low, low, b.val);
    Pow2Values();
    assert FoldUnsigned(false, a, b).value.val == a.val / b.val;
    if a.uneg && w < 64 {
      assert a.val - low >= SIGN > b.val - 1;
    } else {
      assert a.val == low;
    }
  }

  /** By a complement, a plain constant is its own remainder: right if and only if it is below the w-bit
      divisor. */
  lemma ComplementDivisorIff(a: IntConst, b: IntConst, w: nat)
    requires w < 64 && Fits(a, w) && Fits(b, w) && !a.uneg && b.uneg && Mod(b.val, Pow2(w)) != 0
    ensures FoldUnsigned(true, a, b).Some? && FoldUnsigned(true, a, b).value.val == a.val
    ensures a.val == a.val % Mod(b.val, Pow2(w)) <==> a.val < Mod(b.val, Pow2(w))
    ensures FoldUnsigned(false, a, b).value.val == Div(a.val, Mod(b.val, Pow2(w))) <==> a.val < Mod(b.val, Pow2(w))
  {
    hide Pow2, Fits;
    var l := Mod(b.val, Pow2(w));
    FitsBounds(a, w);
    FitsBounds(b, w);
    HalfOfTop(w);
    Quotient(a.val, b.val, 0, a.val);
    DivMod(a.val, l);
    if a.val < l {
      Quotient(a.val, l, 0, a.val);
    } else {
      MulMono(1, a.val / l, l);
    }
  }

  /** Complement by complement: the quotient, and the low bits of the remainder, are the w-bit ones if and
      only if the w-bit dividend is below twice the w-bit divisor; but a remainder of a smaller dividend is
      the dividend itself, which is no constant of w bits without its flag. */
  lemma ComplementsIff(a: IntConst, b: IntConst, w: nat)
    requires w < 64 && Fits(a, w) && Fits(b, w) && a.uneg && b.uneg && Mod(b.val, Pow2(w)) != 0
    ensures var la, lb := Mod(a.val, Pow2(w)), Mod(b.val, Pow2(w));
      && FoldUnsigned(false, a, b).Some? && FoldUnsigned(true, a, b).Some?
      && (FoldUnsigned(false, a, b).value.val == Div(la, lb) <==> la < 2 * lb)
      && (Mod(FoldUnsigned(true, a, b).value.val, Pow2(w)) == la % lb <==> la < 2 * lb)
      && (Fits(FoldUnsigned(true, a, b).value, w) <==> lb <= la)
  {
    hide Pow2, Fits;
    var p := Pow2(w);
    var la, lb := Mod(a.val, p), Mod(b.val, p);
    LowPart(a, w);
    LowPart(b, w);
    HalfOfTop(w);
    SmallQuotient(la, lb);
    FitsBounds(FoldUnsigned(true, a, b).value, w);
    if la < lb {
      Quotient(a.val, b.val, 0, a.val);
    } else {
      Quotient(a.val, b.val, 1, la - lb);
      Quotient(la - lb, p, 0, la - lb);
    }
  }

  lemma SmallQuotient(x: nat, y: nat)
    requires y > 0
    ensures x < y ==> x / y == 0 && x % y == x
    ensures y <= x < 2 * y ==> x / y == 1 && x % y == x - y
    ensures 2 * y <= x ==> x / y >= 2 && x % y != x - y
  {
    DivMod(x, y);
    if x < y {
      Quotient(x, y, 0, x);
    } else if x < 2 * y {
      Quotient(x, y, 1, x - y);
    } else if x / y < 2 {
      MulMono(x / y, 1, y);
    }
  }

  /** A complement of 0 in w bits is no error as a divisor. */
  lemma ZeroComplementIsNoError(a: IntConst, b: IntConst, rem: bool, w: nat)
    requires w < 64 && Fits(b, w) && b.uneg
    ensures FoldUnsigned(rem, a, b).Some?
  {
    FitsBounds(b, w);
    HalfOfTop(w);
  }

  lemma LowPart(a: IntConst, w: nat)
    requires w <= 64 && Fits(a, w)
    ensures a.val == Mod(a.val, Pow2(w)) + if a.uneg then TOP - Pow2(w) else 0
  {
    hide Pow2;
    Pow2Values();
    Pow2Adds(64 - w, w);
    var p, u := Pow2(w), Pow2(64 - w);
    DivMod(a.val, p);
    Distributes(u, 1, p);
    assert a.uneg ==> a.val / p == u - 1;
  }

  lemma HalfOfTop(w: nat)
    requires w <= 64
    ensures Pow2(w) <= TOP && (w < 64 ==> Pow2(w) <= SIGN)
  {
    hide Pow2;
    Pow2Values();
    SignedPowers();
    Pow2Adds(64 - w, w);
    MulMono(1, Pow2(64 - w), Pow2(w));
    if w < 64 {
      Pow2Adds(63 - w, w);
      MulMono(1, Pow2(63 - w), Pow2(w));
    }
  }

  lemma RemainderShift(x: nat, low: nat, b: nat)
    requires b > 0
    ensures (x + low) % b == low % b <==> x % b == 0
  {
    DivMod(x, b);
    DivMod(low, b);
    var q, r, k, s := x / b, x % b, low / b, low % b;
    assert (q + k) * b == q * b + k * b && (q + k + 1) * b == (q + k) * b + b;
    if r + s < b {
      Quotient(x + low, b, q + k, r + s);
    } else {
      Quotient(x + low, b, q + k + 1, r + s - b);
    }
  }

  lemma QuotientGrows(x: nat, low: nat, b: nat)
    requires b > 0
    ensures x >= b ==> (x + low) / b > low / b
  {
    DivMod(x + low, b);
    DivMod(low, b);
    var q, k := (x + low) / b, low / b;
    if x >= b && q <= k {
      MulMono(q, k, b);
      assert false;
    }
  }

  /** As a byte, ~1 % 7 is 254 % 7 = 2, but 0 is folded. */
  lemma RemainderOfComplementIsWrong()
    ensures var a, b := FoldBitNot(IntConst(1, false, false)), IntConst(7, false, false);
      && Converts(a, UInt8) && Converts(b, UInt8)
      && FoldUnsigned(true, a, b) == Some(IntConst(0, false, false)) && Converts(IntConst(0, false, false), UInt8)
      && (a.val % 0x100) % 7 == 2
  {
  }

  // ----- Which operands are folded -----

  datatype Operand = Const(c: IntConst) | Other(id: nat)

  /** Method form `l.op(r)`, function form `op(l, r)`, and the reversed method `r.rop(l)`. */
  datatype Call = Method(receiver: Operand, arg: Operand) | Function(first: Operand, second: Operand)
                | Reversed(receiver: Operand, arg: Operand)

  datatype BinOp = Bitwise(op: BitOp) | Arithmetic(arith: ArithOp)

  function Fold(op: BinOp, l: IntConst, r: IntConst): IntConst {
    match op
    case Bitwise(b) => FoldBits(b, l, r)
    case Arithmetic(a) => FoldArith(a, l, r)
  }

  /** foldConstants: None if the call stays as it is. */
  function FoldCall(op: BinOp, call: Call): Option<IntConst> {
    var l := match call
      case Method(receiver, _) => receiver
      case Function(first, _) => first
      case Reversed(_, arg) => arg;
    var r := match call
      case Method(_, arg) => arg
      case Function(_, second) => second
      case Reversed(receiver, _) => receiver;
    if l.Const? && r.Const? then Some(Fold(op, l.c, r.c)) else None
  }

  /** However `l op r` is written, the same constant is folded, with the same low bits as in w-bit
      arithmetic. */
  lemma FormsAgree(op: BinOp, l: IntConst, r: IntConst, w: nat)
    requires w <= 64
    ensures var m, f, v := Method(Const(l), Const(r)), Function(Const(l), Const(r)), Reversed(Const(r), Const(l));
      FoldCall(op, m) == FoldCall(op, f) == FoldCall(op, v)
    ensures Mod(FoldCall(op, Reversed(Const(r), Const(l))).value.val, Pow2(w))
         == match op
            case Bitwise(b) => Bits(b, Mod(l.val, Pow2(w)), Mod(r.val, Pow2(w)), w)
            case Arithmetic(a) => Arith(a, Mod(l.val, Pow2(w)), Mod(r.val, Pow2(w))) % Pow2(w)
  {
    hide Pow2, FoldBits, FoldArith;
    match op
    case Bitwise(b) => BitwiseLowBits(b, l, r, w);
    case Arithmetic(a) => ArithLowBits(a, l, r, w);
  }
}
