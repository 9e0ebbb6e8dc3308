/** The checksum of the archive writer: CRC-32 as section 8 of RFC 1952 specifies it.
    The word operations have names, so that the longer proofs need not look at bits. */
module Crc32 {
  const POLYNOMIAL: bv32 := 0xedb88320
  const ONES: bv32 := 0xffffffff

  function Xor(a: bv32, b: bv32): bv32 { a ^ b }
  function Half(c: bv32): bv32 { c >> 1 }
  function Low(c: bv32): bv32 { c & 0xff }
  function High(c: bv32): bv32 { c >> 8 }
  function Word(b: bv8): bv32 { b as bv32 }
  predicate Odd(c: bv32) { c & 1 == 1 }

  /** The mask is all ones when `c` is odd and zero when it is even. */
  function Masked(p: bv32, c: bv32): bv32 { p & (0 - (c & 1)) }

  function Shift(c: bv32): bv32 { Xor(Half(c), Masked(POLYNOMIAL, c)) }

  function Shifts(c: bv32, n: nat): bv32
    decreases n
  {
    if n == 0 then c else Shifts(Shift(c), n - 1)
  }

  /** The register after `bytes`, starting from `c`. */
  function Feed(c: bv32, bytes: seq<bv8>): bv32
    decreases |bytes|
  {
    if bytes == [] then c else Feed(Shifts(Xor(c, Word(bytes[0])), 8), bytes[1..])
  }

  function Checksum(bytes: seq<bv8>): bv32 { Xor(Feed(ONES, bytes), ONES) }

  // ---- section 8 of RFC 1952: one table entry for each byte ----

  function RfcBit(c: bv32): bv32 {
    if Odd(c) then Xor(POLYNOMIAL, Half(c)) else Half(c)
  }

  function RfcBits(c: bv32, n: nat): bv32
    decreases n
  {
    if n == 0 then c else RfcBits(RfcBit(c), n - 1)
  }

  function RfcTable(n: bv32): bv32 { RfcBits(n, 8) }

  function RfcUpdate(c: bv32, bytes: seq<bv8>): bv32
    decreases |bytes|
  {
    if bytes == [] then c
    else RfcUpdate(Xor(RfcTable(Low(Xor(c, Word(bytes[0])))), High(c)), bytes[1..])
  }

  function RfcChecksum(bytes: seq<bv8>): bv32 { Xor(RfcUpdate(ONES, bytes), ONES) }

  lemma MaskSelects(p: bv32, c: bv32)
    ensures Masked(p, c) == if Odd(c) then p else 0
  {
  }

  lemma XorLaws(a: bv32, b: bv32)
    ensures Xor(a, b) == Xor(b, a) && Xor(a, 0) == a && Xor(a, a) == 0
    ensures Xor(Xor(a, b), b) == a
  {
  }

  lemma ShiftIsRfcBit(c: bv32)
    ensures Shift(c) == RfcBit(c)
  {
    MaskSelects(POLYNOMIAL, c);
    XorLaws(Half(c), POLYNOMIAL);
    hide Masked, Xor, Half, Odd;
  }

  lemma {:induction false} TableIsShifts(c: bv32, n: nat)
    ensures RfcBits(c, n) == Shifts(c, n)
    decreases n
  {
    hide Shift, RfcBit;
    if n > 0 {
      ShiftIsRfcBit(c);
      TableIsShifts(Shift(c), n - 1);
    }
  }

  // ---- the register is linear ----

  lemma HalfIsLinear(a: bv32, b: bv32)
    ensures Half(Xor(a, b)) == Xor(Half(a), Half(b))
  {
  }

  lemma ParityIsLinear(a: bv32, b: bv32)
    ensures Odd(Xor(a, b)) <==> Odd(a) != Odd(b)
  {
  }

  lemma MaskedIsLinear(p: bv32, a: bv32, b: bv32)
    ensures Masked(p, Xor(a, b)) == Xor(Masked(p, a), Masked(p, b))
  {
    MaskSelects(p, a);
    MaskSelects(p, b);
    MaskSelects(p, Xor(a, b));
    ParityIsLinear(a, b);
    XorLaws(p, 0);
    XorLaws(0, p);
    hide Masked, Xor, Odd;
  }

  lemma AssociativeBits(a: bv32, b: bv32, c: bv32)
    ensures (a ^ b) ^ c == a ^ (b ^ c)
  {
  }

  lemma Associative(a: bv32, b: bv32, c: bv32)
    ensures Xor(Xor(a, b), c) == Xor(a, Xor(b, c))
  {
    AssociativeBits(a, b, c);
  }

  lemma Regroup(x: bv32, y: bv32, u: bv32, v: bv32)
    ensures Xor(Xor(x, y), Xor(u, v)) == Xor(Xor(x, u), Xor(y, v))
  {
    hide Xor;
    Associative(x, y, Xor(u, v));
    Associative(y, u, v);
    Associative(u, y, v);
    Associative(x, u, Xor(y, v));
    XorLaws(y, u);
  }

  lemma ShiftIsLinear(a: bv32, b: bv32)
    ensures Shift(Xor(a, b)) == Xor(Shift(a), Shift(b))
  {
    hide Xor, Half, Masked;
    HalfIsLinear(a, b);
    MaskedIsLinear(POLYNOMIAL, a, b);
    Regroup(Half(a), Half(b), Masked(POLYNOMIAL, a), Masked(POLYNOMIAL, b));
  }

  lemma {:induction false} ShiftsAreLinear(a: bv32, b: bv32, n: nat)
    ensures Shifts(Xor(a, b), n) == Xor(Shifts(a, n), Shifts(b, n))
    decreases n
  {
    hide Xor, Shift;
    if n > 0 {
      ShiftIsLinear(a, b);
      ShiftsAreLinear(Shift(a), Shift(b), n - 1);
    }
  }

  // ---- the byte step is the table step ----

  lemma EvenShifts(c: bv32)
    requires !Odd(c)
    ensures Shift(c) == Half(c)
  {
    MaskSelects(POLYNOMIAL, c);
    XorLaws(Half(c), 0);
    hide Masked, Xor, Half, Odd;
  }

  /** The part of `c` above its low byte. */
  function Above(c: bv32): bv32 { c & 0xffffff00 }

  lemma SplitAtByte(c: bv32)
    ensures c == Xor(Low(c), Above(c)) && High(Above(c)) == High(c)
  {
  }

  lemma HighPartOfByte(c: bv32, b: bv8)
    ensures High(Xor(c, Word(b))) == High(c)
  {
  }

  function Halves(c: bv32, n: nat): bv32
    decreases n
  {
    if n == 0 then c else Halves(Half(c), n - 1)
  }

  predicate EvenFor(c: bv32, n: nat)
    decreases n
  {
    n == 0 || (!Odd(c) && EvenFor(Half(c), n - 1))
  }

  lemma {:induction false} EvenForShifts(c: bv32, n: nat)
    requires EvenFor(c, n)
    ensures Shifts(c, n) == Halves(c, n)
    decreases n
  {
    hide Shift, Half, Odd;
    if n > 0 {
      EvenShifts(c);
      EvenForShifts(Half(c), n - 1);
    }
  }

  lemma ClearIsEven(c: bv32, m: bv32)
    requires c & m == 0 && m & 1 == 1
    ensures !Odd(c) && Half(c) & (m >> 1) == 0
  {
  }

  lemma {:induction false} ClearMeansEvenFor(c: bv32, m: bv32, n: nat)
    requires c & m == 0 && Ones(m, n)
    ensures EvenFor(c, n)
    decreases n
  {
    if n > 0 {
      ClearIsEven(c, m);
      ClearMeansEvenFor(Half(c), m >> 1, n - 1);
    }
  }

  predicate Ones(m: bv32, n: nat)
    decreases n
  {
    n == 0 || (m & 1 == 1 && Ones(m >> 1, n - 1))
  }

  function Quarter(c: bv32): bv32 { c >> 2 }
  function Sixteenth(c: bv32): bv32 { c >> 4 }

  lemma TwoHalves(c: bv32)
    ensures Half(Half(c)) == Quarter(c)
  {
  }

  lemma TwoQuarters(c: bv32)
    ensures Quarter(Quarter(c)) == Sixteenth(c)
  {
  }

  lemma TwoSixteenths(c: bv32)
    ensures Sixteenth(Sixteenth(c)) == High(c)
  {
  }

  lemma FourHalves(c: bv32)
    ensures Half(Half(Half(Half(c)))) == Sixteenth(c)
  {
    hide *;
    TwoHalves(c);
    TwoHalves(Quarter(c));
    TwoQuarters(c);
  }

  lemma EightHalves(c: bv32)
    ensures Half(Half(Half(Half(Half(Half(Half(Half(c)))))))) == High(c)
  {
    hide *;
    FourHalves(c);
    FourHalves(Sixteenth(c));
    TwoSixteenths(c);
  }

  lemma HighPartShifts(c: bv32)
    ensures Shifts(Above(c), 8) == High(Above(c))
  {
    var d := Above(c);
    assert d & 0xff == 0;
    assert Ones(0xff, 8);
    ClearMeansEvenFor(d, 0xff, 8);
    EvenForShifts(d, 8);
    EightHalves(d);
    hide Half, High, Above, EvenFor, Ones, Shifts;
    assert Halves(d, 8) == Halves(Half(Half(Half(Half(d)))), 4);
  }

  lemma ByteStepIsTableStep(c: bv32, b: bv8)
    ensures Shifts(Xor(c, Word(b)), 8) == Xor(RfcTable(Low(Xor(c, Word(b)))), High(c))
  {
    hide Shifts, Xor, Low, High, Word, RfcBits, Above;
    var x := Xor(c, Word(b));
    SplitAtByte(x);
    ShiftsAreLinear(Low(x), Above(x), 8);
    HighPartShifts(x);
    TableIsShifts(Low(x), 8);
    HighPartOfByte(c, b);
  }

  lemma {:induction false} FeedIsRfcUpdate(c: bv32, bytes: seq<bv8>)
    ensures Feed(c, bytes) == RfcUpdate(c, bytes)
    decreases |bytes|
  {
    hide Shifts, RfcTable, Xor, Low, High, Word;
    if bytes != [] {
      ByteStepIsTableStep(c, bytes[0]);
      FeedIsRfcUpdate(Shifts(Xor(c, Word(bytes[0])), 8), bytes[1..]);
    }
  }

  /** The bit loop computes the checksum of section 8 of RFC 1952. */
  lemma ChecksumIsRfc1952(bytes: seq<bv8>)
    ensures Checksum(bytes) == RfcChecksum(bytes)
  {
    hide Feed, RfcUpdate, Xor;
    FeedIsRfcUpdate(ONES, bytes);
  }

  // ---- every step is a bijection of the register ----

  predicate Top(c: bv32) { c & 0x80000000 != 0 }
  function Double(c: bv32): bv32 { c << 1 }

  function Unshift(c: bv32): bv32 {
    if Top(c) then Xor(Double(Xor(c, POLYNOMIAL)), 1) else Double(c)
  }

  lemma HalfUndone(c: bv32)
    ensures Odd(c) ==> Xor(Double(Half(c)), 1) == c
    ensures !Odd(c) ==> Double(Half(c)) == c
    ensures !Top(Half(c))
  {
  }

  lemma DoubleParity(c: bv32)
    ensures !Odd(Double(c)) && Odd(Xor(Double(c), 1))
  {
  }

  lemma DoubleUndone(c: bv32)
    requires !Top(c)
    ensures Half(Double(c)) == c
  {
  }

  lemma OddDoubleUndone(c: bv32)
    requires !Top(c)
    ensures Half(Xor(Double(c), 1)) == c
  {
  }

  lemma TopFlips(c: bv32, p: bv32)
    requires Top(p)
    ensures Top(Xor(c, p)) <==> !Top(c)
  {
  }

  lemma UnshiftUndoesShift(c: bv32)
    ensures Unshift(Shift(c)) == c
  {
    MaskSelects(POLYNOMIAL, c);
    HalfUndone(c);
    TopFlips(Half(c), POLYNOMIAL);
    XorLaws(Half(c), POLYNOMIAL);
    hide Masked, Xor, Half, Odd, Top, Double;
  }

  lemma ShiftUndoesUnshift(c: bv32)
    ensures Shift(Unshift(c)) == c
  {
    MaskSelects(POLYNOMIAL, Unshift(c));
    TopFlips(c, POLYNOMIAL);
    DoubleParity(c);
    DoubleParity(Xor(c, POLYNOMIAL));
    if Top(c) { OddDoubleUndone(Xor(c, POLYNOMIAL)); } else { DoubleUndone(c); }
    XorLaws(c, POLYNOMIAL);
    hide Masked, Xor, Half, Odd, Top, Double;
  }

  function Unshifts(c: bv32, n: nat): bv32
    decreases n
  {
    if n == 0 then c else Unshift(Unshifts(c, n - 1))
  }

  lemma {:induction false} ShiftsAreBijective(c: bv32, n: nat)
    ensures Unshifts(Shifts(c, n), n) == c && Shifts(Unshifts(c, n), n) == c
    decreases n
  {
    hide Shift, Unshift;
    if n > 0 {
      UnshiftUndoesShift(c);
      ShiftsAreBijective(Shift(c), n - 1);
      ShiftUndoesUnshift(Unshifts(c, n - 1));
      ShiftsAreBijective(c, n - 1);
    }
  }

  /** What the register was before byte `b` brought it to `c`. */
  function ByteUndone(c: bv32, b: bv8): bv32 { Xor(Unshifts(c, 8), Word(b)) }

  /** Absorbing a byte is a bijection of the 32-bit registers, whatever the byte. */
  lemma ByteStepIsBijective(c: bv32, b: bv8)
    ensures ByteUndone(Shifts(Xor(c, Word(b)), 8), b) == c
    ensures Shifts(Xor(ByteUndone(c, b), Word(b)), 8) == c
  {
    hide Shifts, Unshifts, Xor, Word;
    ShiftsAreBijective(Xor(c, Word(b)), 8);
    ShiftsAreBijective(c, 8);
    XorLaws(c, Word(b));
    XorLaws(Unshifts(c, 8), Word(b));
  }

  // ---- the message one bit at a time, least significant bit first ----

  function Unit(bit: bool): bv32 { if bit then 1 else 0 }

  function LowBits(w: bv32, n: nat): (bits: seq<bool>)
    ensures |bits| == n
    decreases n
  {
    if n == 0 then [] else [Odd(w)] + LowBits(Half(w), n - 1)
  }

  function Bits(bytes: seq<bv8>): (bits: seq<bool>)
    ensures |bits| == 8 * |bytes|
    decreases |bytes|
  {
    if bytes == [] then [] else LowBits(Word(bytes[0]), 8) + Bits(bytes[1..])
  }

  function Serial(c: bv32, bits: seq<bool>): bv32
    decreases |bits|
  {
    if bits == [] then c else Serial(Shift(Xor(c, Unit(bits[0]))), bits[1..])
  }

  lemma WordSplits(w: bv32)
    ensures w == Xor(Unit(Odd(w)), Double(Half(w))) && !Odd(Double(Half(w))) && Half(Double(Half(w))) == Half(w)
  {
  }

  /** Absorbing `n` bits one by one is absorbing the word they make up at once. */
  lemma {:induction false} SerialIsParallel(c: bv32, w: bv32, n: nat)
    requires Halves(w, n) == 0
    ensures Serial(c, LowBits(w, n)) == Shifts(Xor(c, w), n)
    decreases n
  {
    hide Shift, Xor, Half, Odd, Double, Unit;
    if n == 0 {
      XorLaws(c, w);
    } else {
      WordSplits(w);
      var u, e := Unit(Odd(w)), Double(Half(w));
      Associative(c, u, e);
      ShiftIsLinear(Xor(c, u), e);
      EvenShifts(e);
      SerialIsParallel(Shift(Xor(c, u)), Half(w), n - 1);
      assert LowBits(w, n)[0] == Odd(w) && LowBits(w, n)[1..] == LowBits(Half(w), n - 1);
    }
  }

  lemma {:induction false} SerialConcatenates(c: bv32, x: seq<bool>, y: seq<bool>)
    ensures Serial(c, x + y) == Serial(Serial(c, x), y)
    decreases |x|
  {
    hide Shift, Xor, Unit;
    if x == [] {
      assert x + y == y;
    } else {
      assert (x + y)[0] == x[0] && (x + y)[1..] == x[1..] + y;
      SerialConcatenates(Shift(Xor(c, Unit(x[0]))), x[1..], y);
    }
  }

  lemma ByteFits(b: bv8)
    ensures Halves(Word(b), 8) == 0
  {
    EightHalves(Word(b));
    assert High(Word(b)) == 0;
    hide Half, High, Word;
    var w := Word(b);
    assert Halves(w, 8) == Halves(Half(Half(Half(Half(w)))), 4);
  }

  lemma {:induction false} FeedIsSerial(c: bv32, bytes: seq<bv8>)
    ensures Feed(c, bytes) == Serial(c, Bits(bytes))
    decreases |bytes|
  {
    hide Shifts, Xor, Word, LowBits, Serial;
    if bytes == [] {
      assert Serial(c, []) == c by { SerialOfNothing(c); }
    } else {
      var w := Word(bytes[0]);
      ByteFits(bytes[0]);
      SerialIsParallel(c, w, 8);
      SerialConcatenates(c, LowBits(w, 8), Bits(bytes[1..]));
      FeedIsSerial(Shifts(Xor(c, w), 8), bytes[1..]);
    }
  }

  lemma SerialOfNothing(c: bv32)
    ensures Serial(c, []) == c
  {
  }

  lemma {:induction false} SerialIsInjective(a: bv32, b: bv32, bits: seq<bool>)
    requires Serial(a, bits) == Serial(b, bits)
    ensures a == b
    decreases |bits|
  {
    hide Shift, Xor, Unit;
    if bits != [] {
      var u := Unit(bits[0]);
      SerialIsInjective(Shift(Xor(a, u)), Shift(Xor(b, u)), bits[1..]);
      UnshiftUndoesShift(Xor(a, u));
      UnshiftUndoesShift(Xor(b, u));
      XorLaws(a, u);
      XorLaws(b, u);
    }
  }

  // ---- at most 32 consecutive bits cannot change unnoticed ----

  /** The word whose low bits are `bits`. */
  function Pack(bits: seq<bool>): bv32
    decreases |bits|
  {
    if bits == [] then 0 else Xor(Double(Pack(bits[1..])), Unit(bits[0]))
  }

  /** The top `k` bits of `m` are set. */
  predicate Leading(m: bv32, k: nat)
    decreases k
  {
    k == 0 || (Top(m) && Leading(Double(m), k - 1))
  }

  /** No bit is set in both words. */
  predicate Apart(c: bv32, m: bv32) { c & m == 0 }

  lemma MaskMoves(c: bv32, m: bv32)
    requires Apart(c, m)
    ensures Apart(Double(c), Double(m)) && Apart(Xor(Double(c), 1), Double(m))
  {
  }

  lemma MaskedTop(c: bv32, m: bv32)
    requires Apart(c, m) && Top(m)
    ensures !Top(c)
  {
  }

  lemma NothingApart(m: bv32)
    ensures Apart(0, m)
  {
  }

  lemma PackStep(p: bv32, m: bv32, bit: bool)
    requires Apart(p, m) && Top(m)
    ensures var w := Xor(Double(p), Unit(bit)); Odd(w) == bit && Half(w) == p && Apart(w, Double(m))
  {
    hide Xor, Double, Half, Odd, Top, Apart;
    MaskedTop(p, m);
    MaskMoves(p, m);
    DoubleParity(p);
    DoubleUndone(p);
    OddDoubleUndone(p);
    XorLaws(Double(p), 0);
  }

  lemma {:induction false} PackHolds(bits: seq<bool>, k: nat) returns (m: bv32)
    requires |bits| + k == 32
    ensures Apart(Pack(bits), m) && Leading(m, k)
    ensures LowBits(Pack(bits), |bits|) == bits && Halves(Pack(bits), |bits|) == 0
    decreases |bits|
  {
    hide Half, Double, Top, Odd, Unit, Xor, Apart;
    if bits == [] {
      m := ONES;
      NothingApart(m);
      AllLeading();
    } else {
      var above := PackHolds(bits[1..], k + 1);
      m := Double(above);
      PackStep(Pack(bits[1..]), above, bits[0]);
      assert bits == [bits[0]] + bits[1..];
    }
  }

  lemma AllLeading()
    ensures Leading(ONES, 32)
  {
    assert Leading(0xff000000, 8);
    assert Leading(0xffff0000, 16);
    assert Leading(0xffffff00, 24);
  }

  /** Two strings of at most 32 bits that take the register to the same value are the same. */
  lemma ShortStringsDiffer(c: bv32, x: seq<bool>, y: seq<bool>)
    requires |x| == |y| <= 32 && Serial(c, x) == Serial(c, y)
    ensures x == y
  {
    hide Shifts, Unshifts, Xor, LowBits, Serial, Pack;
    var n := |x|;
    var mx := PackHolds(x, 32 - n);
    var my := PackHolds(y, 32 - n);
    SerialIsParallel(c, Pack(x), n);
    SerialIsParallel(c, Pack(y), n);
    ShiftsAreBijective(Xor(c, Pack(x)), n);
    ShiftsAreBijective(Xor(c, Pack(y)), n);
    XorLaws(Pack(x), c);
    XorLaws(Pack(y), c);
    XorLaws(c, Pack(x));
    XorLaws(c, Pack(y));
  }

  /** The two strings agree outside the 32 positions from `k` on. */
  predicate AgreeOutside(x: seq<bool>, y: seq<bool>, k: nat) {
    |x| == |y| && forall i :: 0 <= i < |x| && !(k <= i < k + 32) ==> x[i] == y[i]
  }

  lemma BurstsChangeTheRegister(c: bv32, x: seq<bool>, y: seq<bool>, k: nat)
    requires AgreeOutside(x, y, k) && Serial(c, x) == Serial(c, y)
    ensures x == y
  {
    hide Serial;
    var from := if k < |x| then k else |x|;
    var to := if k + 32 < |x| then k + 32 else |x|;
    assert x[..from] == y[..from] && x[to..] == y[to..];
    assert x == x[..from] + (x[from..to] + x[to..]);
    assert y == y[..from] + (y[from..to] + y[to..]);
    SerialConcatenates(c, x[..from], x[from..to] + x[to..]);
    SerialConcatenates(c, y[..from], y[from..to] + y[to..]);
    var d := Serial(c, x[..from]);
    SerialConcatenates(d, x[from..to], x[to..]);
    SerialConcatenates(d, y[from..to], y[to..]);
    SerialIsInjective(Serial(d, x[from..to]), Serial(d, y[from..to]), x[to..]);
    ShortStringsDiffer(d, x[from..to], y[from..to]);
  }

  lemma {:induction false} LowBitsDetermine(v: bv32, w: bv32, n: nat)
    requires Halves(v, n) == Halves(w, n) && LowBits(v, n) == LowBits(w, n)
    ensures v == w
    decreases n
  {
    hide Half, Odd, Xor, Double, Unit;
    if n > 0 {
      assert LowBits(v, n)[0] == LowBits(w, n)[0] && LowBits(v, n)[1..] == LowBits(w, n)[1..];
      LowBitsDetermine(Half(v), Half(w), n - 1);
      WordSplits(v);
      WordSplits(w);
    }
  }

  lemma WordIsInjective(a: bv8, b: bv8)
    requires Word(a) == Word(b)
    ensures a == b
  {
  }

  lemma {:induction false} BitsDetermine(a: seq<bv8>, b: seq<bv8>)
    requires Bits(a) == Bits(b)
    ensures a == b
    decreases |a|
  {
    hide Word, LowBits;
    assert |a| == |b|;
    if a != [] {
      assert Bits(a)[..8] == LowBits(Word(a[0]), 8) && Bits(b)[..8] == LowBits(Word(b[0]), 8);
      assert Bits(a)[8..] == Bits(a[1..]) && Bits(b)[8..] == Bits(b[1..]);
      ByteFits(a[0]);
      ByteFits(b[0]);
      LowBitsDetermine(Word(a[0]), Word(b[0]), 8);
      WordIsInjective(a[0], b[0]);
      BitsDetermine(a[1..], b[1..]);
      assert a == [a[0]] + a[1..] && b == [b[0]] + b[1..];
    }
  }

  /** Any change confined to 32 consecutive bits of a message changes its checksum. */
  lemma BurstsAreDetected(a: seq<bv8>, b: seq<bv8>, k: nat)
    requires AgreeOutside(Bits(a), Bits(b), k) && a != b
    ensures Checksum(a) != Checksum(b)
  {
    hide Feed, Xor, Bits, AgreeOutside;
    if Checksum(a) == Checksum(b) {
      XorLaws(Feed(ONES, a), ONES);
      XorLaws(Feed(ONES, b), ONES);
      FeedIsSerial(ONES, a);
      FeedIsSerial(ONES, b);
      BurstsChangeTheRegister(ONES, Bits(a), Bits(b), k);
      BitsDetermine(a, b);
    }
  }

  lemma {:induction false} BitsConcatenate(x: seq<bv8>, y: seq<bv8>)
    ensures Bits(x + y) == Bits(x) + Bits(y)
    decreases |x|
  {
    hide Word, LowBits;
    if x == [] {
      assert x + y == y;
    } else {
      assert (x + y)[0] == x[0] && (x + y)[1..] == x[1..] + y;
      BitsConcatenate(x[1..], y);
    }
  }

  /** In particular, two messages that differ only within four consecutive bytes. */
  lemma FourBytesAreDetected(before: seq<bv8>, x: seq<bv8>, y: seq<bv8>, after: seq<bv8>)
    requires |x| == |y| <= 4 && x != y
    ensures Checksum(before + x + after) != Checksum(before + y + after)
  {
    hide Bits, Checksum;
    BitsConcatenate(before + x, after);
    BitsConcatenate(before, x);
    BitsConcatenate(before + y, after);
    BitsConcatenate(before, y);
    assert (before + x + after)[|before|..|before| + |x|] == x;
    assert (before + y + after)[|before|..|before| + |y|] == y;
    BurstsAreDetected(before + x + after, before + y + after, 8 * |before|);
  }

  // ---- the loop ----

  lemma ComplementIsXor(c: bv32)
    ensures !c == Xor(c, 0xffffffff)
  {
  }

  lemma ShiftsOneMore(c: bv32, n: nat)
    ensures Shifts(c, n + 1) == Shift(Shifts(c, n))
    decreases n
  {
    hide Shift;
    if n > 0 { ShiftsOneMore(Shift(c), n - 1); }
  }

  lemma {:induction false} FeedOneMore(c: bv32, bytes: seq<bv8>, b: bv8)
    ensures Feed(c, bytes + [b]) == Shifts(Xor(Feed(c, bytes), Word(b)), 8)
    decreases |bytes|
  {
    hide Shifts, Xor, Word;
    if bytes == [] {
      assert bytes + [b] == [b] && [b][1..] == [];
    } else {
      assert (bytes + [b])[0] == bytes[0] && (bytes + [b])[1..] == bytes[1..] + [b];
      FeedOneMore(Shifts(Xor(c, Word(bytes[0])), 8), bytes[1..], b);
    }
  }

  method AbsorbByte(crc: bv32, value: bv8) returns (next: bv32)
    ensures next == Shifts(Xor(crc, Word(value)), 8)
  {
    next := crc ^ (value as bv32);
    assert next == Xor(crc, Word(value));
    hide Xor, Word, Shift;
    ghost var start := next;
    assert next == Shifts(start, 0);
    for bit := 0 to 8
      invariant next == Shifts(start, bit)
    {
      ShiftsOneMore(start, bit);
      next := ShiftOnce(next);
    }
  }

  method ShiftOnce(crc: bv32) returns (next: bv32)
    ensures next == Shift(crc)
  {
    next := (crc >> 1) ^ (POLYNOMIAL & (0 - (crc & 1)));
    assert next == Xor(Half(crc), Masked(POLYNOMIAL, crc));
  }

  method ComputeChecksum(bytes: seq<bv8>) returns (checksum: bv32)
    ensures checksum == Checksum(bytes)
  {
    hide Shift, Shifts, Xor, Word, Feed;
    var crc := ONES;
    assert crc == Feed(ONES, []) by { FeedOfNothing(ONES); }
    for i := 0 to |bytes|
      invariant crc == Feed(ONES, bytes[..i])
    {
      crc := AbsorbByte(crc, bytes[i]);
      FeedOneMore(ONES, bytes[..i], bytes[i]);
      assert bytes[..i + 1] == bytes[..i] + [bytes[i]];
    }
    assert bytes[..|bytes|] == bytes;
    ComplementIsXor(crc);
    checksum := !crc;
  }

  lemma FeedOfNothing(c: bv32)
    ensures Feed(c, []) == c
  {
  }

  // ---- the check value ----

  lemma FeedFirst(c: bv32, b: bv8, rest: seq<bv8>, next: bv32)
    requires Shifts(Xor(c, Word(b)), 8) == next
    ensures Feed(c, [b] + rest) == Feed(next, rest)
  {
    hide Shifts, Xor, Word;
    assert ([b] + rest)[1..] == rest;
  }

  lemma ThreeMore(c: bv32, x: bv8, y: bv8, z: bv8, rest: seq<bv8>, afterX: bv32, afterY: bv32, afterZ: bv32)
    requires Shifts(Xor(c, Word(x)), 8) == afterX && Shifts(Xor(afterX, Word(y)), 8) == afterY
    requires Shifts(Xor(afterY, Word(z)), 8) == afterZ
    ensures Feed(c, [x] + ([y] + ([z] + rest))) == Feed(afterZ, rest)
  {
    hide Shifts, Xor, Word, Feed;
    FeedFirst(c, x, [y] + ([z] + rest), afterX);
    FeedFirst(afterX, y, [z] + rest, afterY);
    FeedFirst(afterY, z, rest, afterZ);
  }

  lemma FirstThree()
    ensures Shifts(Xor(0xffffffff, Word(0x31)), 8) == 0x7c231048
    ensures Shifts(Xor(0x7c231048, Word(0x32)), 8) == 0xb0acbb32
    ensures Shifts(Xor(0xb0acbb32, Word(0x33)), 8) == 0x77b79c2d
  {
  }

  lemma MiddleThree()
    ensures Shifts(Xor(0x77b79c2d, Word(0x34)), 8) == 0x641c1f5c
    ensures Shifts(Xor(0x641c1f5c, Word(0x35)), 8) == 0x340ac5e3
    ensures Shifts(Xor(0x340ac5e3, Word(0x36)), 8) == 0xf68d2c9e
  {
  }

  lemma LastThree()
    ensures Shifts(Xor(0xf68d2c9e, Word(0x37)), 8) == 0xaffc9660
    ensures Shifts(Xor(0xaffc9660, Word(0x38)), 8) == 0x651f2550
    ensures Shifts(Xor(0x651f2550, Word(0x39)), 8) == 0x340bc6d9
  {
  }

  /** The digits from 1 to 9 have the checksum that is published for this polynomial. */
  lemma CheckValue(digits: seq<bv8>)
    requires digits == [0x31, 0x32, 0x33, 0x34, 0x35, 0x36, 0x37, 0x38, 0x39]
    ensures Checksum(digits) == 0xcbf43926
  {
    hide Shifts, Xor, Word, Feed;
    FirstThree();
    MiddleThree();
    LastThree();
    ThreeMore(0xffffffff, 0x31, 0x32, 0x33, digits[3..], 0x7c231048, 0xb0acbb32, 0x77b79c2d);
    ThreeMore(0x77b79c2d, 0x34, 0x35, 0x36, digits[6..], 0x641c1f5c, 0x340ac5e3, 0xf68d2c9e);
    ThreeMore(0xf68d2c9e, 0x37, 0x38, 0x39, digits[9..], 0xaffc9660, 0x651f2550, 0x340bc6d9);
    assert digits[0..] == [0x31] + ([0x32] + ([0x33] + digits[3..]));
    assert digits[3..] == [0x34] + ([0x35] + ([0x36] + digits[6..]));
    assert digits[6..] == [0x37] + ([0x38] + ([0x39] + digits[9..]));
    assert digits[0..] == digits && digits[9..] == [];
    NothingFed(0x340bc6d9);
    LastXor();
  }

  lemma NothingFed(c: bv32)
    ensures Feed(c, []) == c
  {
  }

  lemma LastXor()
    ensures Xor(0x340bc6d9, ONES) == 0xcbf43926
  {
  }
}
