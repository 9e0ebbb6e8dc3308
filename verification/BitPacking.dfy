/** Packing bits into bytes, least significant bit first: two independent packers, and the reader
    that recovers what either of them wrote. */
module BitPacking {
  import opened Arithmetic
  import opened Common

  // ---- bits of numbers and of bytes ----

  function Power(k: nat): (p: nat)
    ensures p > 0
  {
    if k == 0 then 1 else 2 * Power(k - 1)
  }

  predicate BitOf(v: nat, i: nat) { v / Power(i) % 2 == 1 }

  /** The low `width` bits of `v`, the least significant first. */
  function LowBits(v: nat, width: nat): (bits: seq<bool>)
    ensures |bits| == width && forall i :: 0 <= i < width ==> bits[i] == BitOf(v, i)
  {
    seq(width, i requires 0 <= i < width => BitOf(v, i))
  }

  function Number(bits: seq<bool>): (v: nat)
    ensures v < Power(|bits|)
  {
    if bits == [] then 0 else (if bits[0] then 1 else 0) + 2 * Number(bits[1..])
  }

  function Mask(k: nat): bv8
    requires k < 8
  {
    if k == 0 then 1 else if k == 1 then 2 else if k == 2 then 4 else if k == 3 then 8
    else if k == 4 then 16 else if k == 5 then 32 else if k == 6 then 64 else 128
  }

  predicate Has(x: bv8, k: nat)
    requires k < 8
  {
    x & Mask(k) != 0
  }

  function With(x: bv8, k: nat): bv8
    requires k < 8
  {
    x | Mask(k)
  }

  predicate BitAt(bytes: seq<bv8>, i: nat)
    requires i < 8 * |bytes|
  {
    Has(bytes[i / 8], i % 8)
  }

  function Unpacked(bytes: seq<bv8>): (bits: seq<bool>)
    ensures |bits| == 8 * |bytes|
    ensures forall i :: 0 <= i < 8 * |bytes| ==> bits[i] == BitAt(bytes, i)
  {
    seq(8 * |bytes|, i requires 0 <= i < 8 * |bytes| => BitAt(bytes, i))
  }

  /** The bytes hold the bits in order, and zeros up to the end of the last byte. */
  ghost predicate Encodes(bytes: seq<bv8>, bits: seq<bool>) {
    && |bytes| == (|bits| + 7) / 8
    && forall i :: 0 <= i < 8 * |bytes| ==> BitAt(bytes, i) == (i < |bits| && bits[i])
  }

  /** The first bit of a byte is its least significant one: 43 is 1 + 2 + 8 + 32. */
  lemma LeastFirst()
    ensures Encodes([0x2b], [true, true, false, true, false, true, false, false])
    ensures LowBits(43, 8) == [true, true, false, true, false, true, false, false]
  {
    var x: bv8 := 0x2b;
    assert Has(x, 0) && Has(x, 1) && !Has(x, 2) && Has(x, 3) && !Has(x, 4) && Has(x, 5) && !Has(x, 6) && !Has(x, 7);
    assert Power(0) == 1 && Power(1) == 2 && Power(2) == 4 && Power(3) == 8 && Power(4) == 16 && Power(5) == 32
        && Power(6) == 64 && Power(7) == 128;
  }

  lemma OrMask(x: bv8, k: nat, j: nat)
    requires k < 8 && j < 8
    ensures Has(With(x, k), j) <==> j == k || Has(x, j)
  {
  }

  lemma NoBits(j: nat)
    requires j < 8
    ensures !Has(0, j)
  {
  }

  lemma BitsDetermineByte(x: bv8, y: bv8)
    requires forall j :: 0 <= j < 8 ==> Has(x, j) == Has(y, j)
    ensures x == y
  {
    assert Has(x, 0) == Has(y, 0) && Has(x, 1) == Has(y, 1);
    assert Has(x, 2) == Has(y, 2) && Has(x, 3) == Has(y, 3);
    assert Has(x, 4) == Has(y, 4) && Has(x, 5) == Has(y, 5);
    assert Has(x, 6) == Has(y, 6) && Has(x, 7) == Has(y, 7);
    EightBits(x, y);
  }

  lemma EightBits(x: bv8, y: bv8)
    requires (x & 1 != 0 <==> y & 1 != 0) && (x & 2 != 0 <==> y & 2 != 0)
    requires (x & 4 != 0 <==> y & 4 != 0) && (x & 8 != 0 <==> y & 8 != 0)
    requires (x & 16 != 0 <==> y & 16 != 0) && (x & 32 != 0 <==> y & 32 != 0)
    requires (x & 64 != 0 <==> y & 64 != 0) && (x & 128 != 0 <==> y & 128 != 0)
    ensures x == y
  {
  }

  lemma SameByte(a: seq<bv8>, b: seq<bv8>, n: nat)
    requires n < |a| == |b| && forall i :: 0 <= i < 8 * |a| ==> BitAt(a, i) == BitAt(b, i)
    ensures a[n] == b[n]
  {
    forall j | 0 <= j < 8 ensures Has(a[n], j) == Has(b[n], j) {
      var i := 8 * n + j;
      assert i / 8 == n && i % 8 == j;
      assert BitAt(a, i) == BitAt(b, i);
    }
    BitsDetermineByte(a[n], b[n]);
  }

  /** Bits have one encoding only, so two packers that encode the same bits agree byte for byte. */
  lemma EncodingIsUnique(a: seq<bv8>, b: seq<bv8>, bits: seq<bool>)
    requires Encodes(a, bits) && Encodes(b, bits)
    ensures a == b
  {
    hide BitAt;
    forall n | 0 <= n < |a| ensures a[n] == b[n] { SameByte(a, b, n); }
  }

  // ---- reading back ----

  lemma HalfBits(v: nat, i: nat)
    ensures BitOf(v, i + 1) == BitOf(v / 2, i)
  {
    assert v / (2 * Power(i)) == v / 2 / Power(i) by { DivideTwice(v, Power(i)); }
  }

  lemma DivideTwice(v: nat, p: nat)
    requires p > 0
    ensures v / (2 * p) == v / 2 / p
  {
    var q, r := v / 2 / p, v / 2 % p;
    assert v / 2 == p * q + r;
    assert v == 2 * (v / 2) + v % 2;
    var s := 2 * r + v % 2;
    assert v == (2 * p) * q + s && s < 2 * p;
    Quotient(v, 2 * p, q, s);
  }

  /** Reading back a field of `width` bits gives the value modulo two to the width. */
  lemma {:induction false} NumberOfLowBits(v: nat, width: nat)
    ensures Number(LowBits(v, width)) == v % Power(width)
  {
    if width > 0 {
      var bits := LowBits(v, width);
      forall i | 0 <= i < width - 1 ensures bits[1..][i] == BitOf(v / 2, i) { HalfBits(v, i); }
      assert bits[1..] == LowBits(v / 2, width - 1);
      NumberOfLowBits(v / 2, width - 1);
      LowestBit(v, Power(width - 1));
      assert bits[0] == (v % 2 == 1) by { assert Power(0) == 1; }
    }
  }

  lemma LowestBit(v: nat, p: nat)
    requires p > 0
    ensures v % (2 * p) == v % 2 + 2 * (v / 2 % p)
  {
    var q, r := v / 2 / p, v / 2 % p;
    assert v / 2 == p * q + r;
    assert v == 2 * (v / 2) + v % 2;
    assert v == (2 * p) * q + (2 * r + v % 2);
    Quotient(v, 2 * p, q, 2 * r + v % 2);
  }

  /** Values that agree modulo a higher power of two have the same low bits. */
  lemma {:induction false} LowBitOfRemainder(v: nat, k: nat, i: nat)
    requires i < k
    ensures BitOf(v % Power(k), i) == BitOf(v, i)
  {
    HalfOfRemainder(v, Power(k - 1));
    if i == 0 {
      LastBit(v);
      LastBit(v % Power(k));
    } else {
      LowBitOfRemainder(v / 2, k - 1, i - 1);
      HalfBits(v, i - 1);
      HalfBits(v % Power(k), i - 1);
      hide BitOf;
    }
  }

  lemma HalfOfRemainder(v: nat, p: nat)
    requires p > 0
    ensures v % (2 * p) % 2 == v % 2 && v % (2 * p) / 2 == v / 2 % p
  {
    LowestBit(v, p);
    var low, high := v % 2, v / 2 % p;
    assert v % (2 * p) == low + 2 * high;
  }

  lemma LastBit(v: nat)
    ensures BitOf(v, 0) == (v % 2 == 1)
  {
    assert Power(0) == 1;
  }

  lemma LowBitsOfRemainder(v: nat, k: nat, width: nat)
    requires width <= k
    ensures LowBits(v % Power(k), width) == LowBits(v, width)
  {
    forall i | 0 <= i < width ensures BitOf(v % Power(k), i) == BitOf(v, i) { LowBitOfRemainder(v, k, i); }
  }

  // ---- one more bit ----

  /** The bytes after one more bit, with a new byte when the last one is full. */
  function Grown(bytes: seq<bv8>, length: nat): seq<bv8> {
    if length % 8 == 0 then bytes + [0] else bytes
  }

  lemma GrownEncodes(bytes: seq<bv8>, bits: seq<bool>)
    requires Encodes(bytes, bits)
    ensures var grown := Grown(bytes, |bits|);
            && |grown| == (|bits| + 8) / 8 && |bits| / 8 == |grown| - 1
            && forall i :: 0 <= i < 8 * |grown| ==> BitAt(grown, i) == (i < |bits| && bits[i])
  {
    var grown := Grown(bytes, |bits|);
    forall i | 0 <= i < 8 * |grown| ensures BitAt(grown, i) == (i < |bits| && bits[i]) {
      if i < 8 * |bytes| {
        assert grown[i / 8] == bytes[i / 8];
        assert BitAt(bytes, i) == (i < |bits| && bits[i]);
      } else {
        NoBits(i % 8);
      }
    }
  }

  /** `grown` with the bit at position `at` set. */
  function WithBit(grown: seq<bv8>, at: nat): seq<bv8>
    requires at < 8 * |grown|
  {
    grown[at / 8 := With(grown[at / 8], at % 8)]
  }

  lemma OneBitSet(grown: seq<bv8>, at: nat, i: nat)
    requires at < 8 * |grown| && i < 8 * |grown|
    ensures BitAt(WithBit(grown, at), i) == (i == at || BitAt(grown, i))
  {
    hide Has, With;
    var n, k, j := at / 8, at % 8, i % 8;
    assert i == 8 * (i / 8) + j && at == 8 * n + k;
    var r := WithBit(grown, at);
    if i / 8 == n {
      assert r[i / 8] == With(grown[n], k);
      OrMask(grown[n], k, j);
      assert i == at <==> j == k;
    } else {
      assert r[i / 8] == grown[i / 8];
    }
  }

  /** Setting the bit behind the last one, or leaving it clear, appends it. */
  lemma BitAppended(grown: seq<bv8>, bits: seq<bool>, bit: bool)
    requires |grown| == (|bits| + 8) / 8
    requires forall i :: 0 <= i < 8 * |grown| ==> BitAt(grown, i) == (i < |bits| && bits[i])
    ensures Encodes(if bit then WithBit(grown, |bits|) else grown, bits + [bit])
  {
    var r := if bit then WithBit(grown, |bits|) else grown;
    forall i | 0 <= i < 8 * |r| ensures BitAt(r, i) == (i < |bits| + 1 && (bits + [bit])[i]) {
      assert BitAt(grown, i) == (i < |bits| && bits[i]);
      if bit { OneBitSet(grown, |bits|, i); }
      hide BitAt;
    }
  }

  lemma LowBitsOneMore(v: nat, width: nat)
    ensures LowBits(v, width + 1) == LowBits(v, width) + [BitOf(v, width)]
  {
  }

  /** The writer of the entity viewer. */
  class LsbBitWriter {
    var bytes: seq<bv8>
    var bitLength: nat
    ghost var contents: seq<bool>      // the bits written so far

    ghost predicate Valid()
      reads this
    {
      bitLength == |contents| && Encodes(bytes, contents)
    }

    constructor ()
      ensures Valid() && contents == []
    {
      bytes, bitLength, contents := [], 0, [];
    }

    method Write(value: nat, width: nat)
      requires Valid() && value < 0x1_0000_0000 && width <= 32
      modifies this
      ensures Valid() && contents == old(contents) + LowBits(value, width)
    {
      hide Encodes, BitAt, With, Has;
      assert LowBits(value, 0) == [];
      for bit := 0 to width
        invariant Valid() && contents == old(contents) + LowBits(value, bit)
      {
        GrownEncodes(bytes, contents);
        if bitLength % 8 == 0 { bytes := bytes + [0]; }
        BitAppended(bytes, contents, BitOf(value, bit));
        if value / Power(bit) % 2 != 0 {
          var n := bitLength / 8;
          bytes := bytes[n := With(bytes[n], bitLength % 8)];
        }
        LowBitsOneMore(value, bit);
        contents := contents + [BitOf(value, bit)];
        bitLength := bitLength + 1;
      }
    }

    method WriteString(text: seq<Byte>)
      requires Valid()
      modifies this
      ensures Valid() && contents == old(contents) + StringBits(text)
    {
      hide Encodes, LowBits;
      for i := 0 to |text|
        invariant Valid() && contents == old(contents) + CharBits(text[..i])
      {
        Write(text[i], 8);
        CharBitsOneMore(text, i);
      }
      assert text[..|text|] == text;
      Write(0, 8);
    }

    method AlignZero()
      requires Valid()
      modifies this
      ensures Valid() && bitLength % 8 == 0 && 0 <= bitLength - old(bitLength) < 8
      ensures contents == old(contents) + LowBits(0, bitLength - old(bitLength))
    {
      hide Encodes;
      assert LowBits(0, 0) == [];
      while bitLength % 8 != 0
        invariant Valid() && old(bitLength) <= bitLength <= (old(bitLength) + 7) / 8 * 8
        invariant contents == old(contents) + LowBits(0, bitLength - old(bitLength))
        decreases (old(bitLength) + 7) / 8 * 8 - bitLength
      {
        ZerosOneMore(bitLength - old(bitLength));
        Write(0, 1);
      }
    }

    /** One to eight zero bits, so that even an aligned list is followed by some. */
    method TerminalPadding()
      requires Valid()
      modifies this
      ensures Valid() && bitLength % 8 == 0 && contents == old(contents) + LowBits(0, 8 - old(bitLength) % 8)
    {
      hide Encodes;
      Write(0, 8 - bitLength % 8);
    }
  }

  function CharBits(text: seq<Byte>): seq<bool> {
    if text == [] then [] else LowBits(text[0], 8) + CharBits(text[1..])
  }

  /** The characters and a final zero byte. */
  function StringBits(text: seq<Byte>): seq<bool> { CharBits(text) + LowBits(0, 8) }

  lemma {:induction false} CharBitsConcatenate(a: seq<Byte>, b: seq<Byte>)
    ensures CharBits(a + b) == CharBits(a) + CharBits(b)
  {
    hide LowBits;
    if a == [] {
      assert a + b == b;
    } else {
      assert (a + b)[0] == a[0] && (a + b)[1..] == a[1..] + b;
      CharBitsConcatenate(a[1..], b);
    }
  }

  lemma CharBitsOneMore(text: seq<Byte>, i: nat)
    requires i < |text|
    ensures CharBits(text[..i + 1]) == CharBits(text[..i]) + LowBits(text[i], 8)
  {
    assert text[..i + 1] == text[..i] + [text[i]];
    CharBitsConcatenate(text[..i], [text[i]]);
    assert [text[i]][1..] == [];
    assert LowBits(text[i], 8) + [] == LowBits(text[i], 8);
  }

  lemma ZerosOneMore(n: nat)
    ensures LowBits(0, n + 1) == LowBits(0, n) + LowBits(0, 1)
  {
    ZeroBits(n + 1);
    ZeroBits(n);
    ZeroBits(1);
  }

  lemma ZeroBits(n: nat)
    ensures forall i :: 0 <= i < n ==> !LowBits(0, n)[i]
  {
    forall i | 0 <= i < n ensures !LowBits(0, n)[i] { assert 0 / Power(i) == 0; }
  }

  /** The packer of the baseline check: the same bytes by a different order of steps. */
  class BaselineBits {
    var bytes: seq<bv8>
    var bit: nat
    ghost var contents: seq<bool>

    ghost predicate Valid()
      reads this
    {
      bit == |contents| && Encodes(bytes, contents)
    }

    constructor ()
      ensures Valid() && contents == []
    {
      bytes, bit, contents := [], 0, [];
    }

    method Put(value: nat, width: nat)
      requires Valid() && value < 0x1_0000_0000 && width <= 32
      modifies this
      ensures Valid() && contents == old(contents) + LowBits(value, width)
    {
      hide Encodes, BitAt, With, Has;
      assert LowBits(value, 0) == [];
      for i := 0 to width
        invariant Valid() && contents == old(contents) + LowBits(value, i)
      {
        GrownEncodes(bytes, contents);
        GrowsWhenFull(bytes, contents);
        BitAppended(Grown(bytes, bit), contents, BitOf(value, i));
        if value / Power(i) % 2 != 0 {
          if bit / 8 == |bytes| { bytes := bytes + [0]; }
          var n := bit / 8;
          bytes := bytes[n := With(bytes[n], bit % 8)];
        } else if bit / 8 == |bytes| {
          bytes := bytes + [0];
        }
        LowBitsOneMore(value, i);
        contents := contents + [BitOf(value, i)];
        bit := bit + 1;
      }
    }

    method PutText(text: seq<Byte>)
      requires Valid()
      modifies this
      ensures Valid() && contents == old(contents) + StringBits(text)
    {
      hide Encodes, LowBits;
      for i := 0 to |text|
        invariant Valid() && contents == old(contents) + CharBits(text[..i])
      {
        Put(text[i], 8);
        CharBitsOneMore(text, i);
      }
      assert text[..|text|] == text;
      Put(0, 8);
    }

    method Align()
      requires Valid()
      modifies this
      ensures Valid() && bit % 8 == 0 && 0 <= bit - old(bit) < 8
      ensures contents == old(contents) + LowBits(0, bit - old(bit))
    {
      hide Encodes;
      assert LowBits(0, 0) == [];
      while bit % 8 != 0
        invariant Valid() && old(bit) <= bit <= (old(bit) + 7) / 8 * 8
        invariant contents == old(contents) + LowBits(0, bit - old(bit))
        decreases (old(bit) + 7) / 8 * 8 - bit
      {
        ZerosOneMore(bit - old(bit));
        Put(0, 1);
      }
    }
  }

  lemma GrowsWhenFull(bytes: seq<bv8>, bits: seq<bool>)
    requires Encodes(bytes, bits)
    ensures |bits| % 8 == 0 <==> |bits| / 8 == |bytes|
  {
  }

  /** After the same bits the two packers hold the same bytes. */
  lemma PackersAgree(w: LsbBitWriter, b: BaselineBits)
    requires w.Valid() && b.Valid() && w.contents == b.contents
    ensures w.bytes == b.bytes && w.bitLength == b.bit
  {
    EncodingIsUnique(w.bytes, b.bytes, w.contents);
  }

  // ---- any sequence of writes ----

  datatype Field = Field(value: nat, width: nat)

  function Written(fields: seq<Field>): seq<bool> {
    if fields == [] then [] else LowBits(fields[0].value, fields[0].width) + Written(fields[1..])
  }

  function TotalWidth(widths: seq<nat>): nat {
    if widths == [] then 0 else widths[0] + TotalWidth(widths[1..])
  }

  function Widths(fields: seq<Field>): (w: seq<nat>)
    ensures |w| == |fields| && forall i :: 0 <= i < |fields| ==> w[i] == fields[i].width
  {
    seq(|fields|, i requires 0 <= i < |fields| => fields[i].width)
  }

  /** Reads one number of each width. */
  function ReadBack(widths: seq<nat>, bits: seq<bool>): (values: seq<nat>)
    requires TotalWidth(widths) <= |bits|
    ensures |values| == |widths|
  {
    if widths == [] then []
    else [Number(bits[..widths[0]])] + ReadBack(widths[1..], bits[widths[0]..])
  }

  lemma {:induction false} WrittenReadBack(fields: seq<Field>, after: seq<bool>)
    ensures |Written(fields)| == TotalWidth(Widths(fields))
    ensures var values := ReadBack(Widths(fields), Written(fields) + after);
            forall i :: 0 <= i < |fields| ==> values[i] == fields[i].value % Power(fields[i].width)
  {
    hide LowBits, Number, Power;
    if fields != [] {
      var f, rest := fields[0], fields[1..];
      WrittenReadBack(rest, after);
      NumberOfLowBits(f.value, f.width);
      assert fields == [f] + rest;
      FirstField(f, rest, Written(fields) + after, after);
      hide ReadBack, Written, TotalWidth, Widths;
      var values := ReadBack(Widths(fields), Written(fields) + after);
      forall i | 0 <= i < |fields| ensures values[i] == fields[i].value % Power(fields[i].width) {
        if i > 0 { assert fields[i] == rest[i - 1]; }
      }
    }
  }

  lemma FirstField(f: Field, rest: seq<Field>, bits: seq<bool>, after: seq<bool>)
    requires bits == Written([f] + rest) + after && |Written(rest)| == TotalWidth(Widths(rest))
    ensures var fields := [f] + rest;
            && |Written(fields)| == TotalWidth(Widths(fields))
            && ReadBack(Widths(fields), bits) == [Number(LowBits(f.value, f.width))] + ReadBack(Widths(rest), Written(rest) + after)
  {
    hide LowBits, Number;
    var fields := [f] + rest;
    assert fields[1..] == rest && Widths(fields)[1..] == Widths(rest);
    assert bits[..f.width] == LowBits(f.value, f.width) && bits[f.width..] == Written(rest) + after;
  }

  /** Reading the packed bytes with the same widths gives every value modulo two to its width,
      and there are just enough bytes for the bits. */
  lemma PackedReadBack(fields: seq<Field>, bytes: seq<bv8>)
    requires Encodes(bytes, Written(fields))
    ensures |bytes| == (TotalWidth(Widths(fields)) + 7) / 8
    ensures TotalWidth(Widths(fields)) <= |Unpacked(bytes)|
    ensures var values := ReadBack(Widths(fields), Unpacked(bytes));
            forall i :: 0 <= i < |fields| ==> values[i] == fields[i].value % Power(fields[i].width)
  {
    hide Encodes, Written, Unpacked, Power, TotalWidth, Widths, ReadBack;
    EncodedSize(bytes, Written(fields));
    UnpackedStarts(bytes, Written(fields));
    WrittenReadBack(fields, []);
    var bits, all := Written(fields), Unpacked(bytes);
    assert all == bits + all[|bits|..];
    WrittenReadBack(fields, all[|bits|..]);
  }

  lemma EncodedSize(bytes: seq<bv8>, bits: seq<bool>)
    requires Encodes(bytes, bits)
    ensures |bytes| == (|bits| + 7) / 8
  {
  }

  lemma UnpackedStarts(bytes: seq<bv8>, bits: seq<bool>)
    requires Encodes(bytes, bits)
    ensures |bits| <= 8 * |bytes| < |bits| + 8 && Unpacked(bytes)[..|bits|] == bits
    ensures forall i :: |bits| <= i < 8 * |bytes| ==> !Unpacked(bytes)[i]
  {
    hide BitAt;
  }
}
