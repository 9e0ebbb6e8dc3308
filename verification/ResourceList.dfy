/** The resource list that the entity viewer sends, as bits, and a decoder for it. */
module ResourceList {
  import opened Arithmetic
  import opened BitPacking
  import opened Common

  type Name = seq<Byte>

  const OPCODE: nat := 43
  const MODEL: nat := 2

  datatype Options = Options(virtualMap: Name, models: seq<Name>, sprites: seq<Name>)
  datatype Resource = Resource(name: Name, index: nat)

  /** The map, the models and the sprites take consecutive slots. */
  function Resources(o: Options): (r: seq<Resource>)
    ensures |r| == 1 + |o.models| + |o.sprites|
    ensures forall i :: 0 <= i < |r| ==> r[i].index == i
    ensures r[0].name == o.virtualMap
    ensures forall i :: 0 <= i < |o.models| ==> r[1 + i].name == o.models[i]
    ensures forall i :: 0 <= i < |o.sprites| ==> r[1 + |o.models| + i].name == o.sprites[i]
  {
    var names := [o.virtualMap] + o.models + o.sprites;
    seq(|names|, i requires 0 <= i < |names| => Resource(names[i], i))
  }

  // ---- the bits ----

  function EntryBits(r: Resource): seq<bool> {
    LowBits(MODEL, 4) + StringBits(r.name) + LowBits(r.index, 12) + LowBits(0, 24) + LowBits(0, 4)
  }

  function EntriesBits(rs: seq<Resource>): seq<bool> {
    if rs == [] then [] else EntryBits(rs[0]) + EntriesBits(rs[1..])
  }

  function ListBits(rs: seq<Resource>): seq<bool> {
    var bits := LowBits(OPCODE, 8) + LowBits(|rs|, 12) + EntriesBits(rs);
    bits + LowBits(0, 8 - |bits| % 8)
  }

  // ---- the decoder ----

  datatype Taken = Taken(value: nat, rest: seq<bool>)

  /** The number in the next `width` bits. */
  function Take(bits: seq<bool>, width: nat): (t: Option<Taken>)
    ensures t.Some? ==> t.value.value < Power(width) && |t.value.rest| == |bits| - width
  {
    if |bits| < width then None else Some(Taken(Number(bits[..width]), bits[width..]))
  }

  datatype TakenName = TakenName(name: Name, rest: seq<bool>)

  /** The characters up to a zero byte. */
  function TakeName(bits: seq<bool>): (t: Option<TakenName>)
    ensures t.Some? ==> 0 !in t.value.name && |t.value.rest| < |bits|
    decreases |bits|
  {
    var c := Take(bits, 8);
    if c.None? then None
    else if c.value.value == 0 then Some(TakenName([], c.value.rest))
    else
      var more := TakeName(c.value.rest);
      assert Power(8) == 256 by { PowerOfEight(); }
      if more.None? then None else Some(TakenName([c.value.value] + more.value.name, more.value.rest))
  }

  lemma PowerOfEight()
    ensures Power(8) == 256 && Power(12) == 4096 && Power(4) == 16 && Power(24) == 16777216
  {
    assert Power(4) == 16;
    assert Power(8) == 256;
    assert Power(12) == 4096;
    assert Power(16) == 65536;
    assert Power(20) == 1048576;
  }

  datatype TakenEntry = TakenEntry(resource: Resource, rest: seq<bool>)

  function TakeEntry(bits: seq<bool>): (t: Option<TakenEntry>)
    ensures t.Some? ==> 0 !in t.value.resource.name
  {
    var kind := Take(bits, 4);
    if kind.None? || kind.value.value != MODEL then None else
      var name := TakeName(kind.value.rest);
      if name.None? then None else
        var index := Take(name.value.rest, 12);
        if index.None? then None else
          var size := Take(index.value.rest, 24);
          if size.None? || size.value.value != 0 then None else
            var flags := Take(size.value.rest, 4);
            if flags.None? || flags.value.value != 0 then None
            else Some(TakenEntry(Resource(name.value.name, index.value.value), flags.value.rest))
  }

  datatype TakenEntries = TakenEntries(resources: seq<Resource>, rest: seq<bool>)

  function TakeEntries(bits: seq<bool>, count: nat): (t: Option<TakenEntries>)
    ensures t.Some? ==> |t.value.resources| == count && forall r <- t.value.resources :: 0 !in r.name
    decreases count
  {
    if count == 0 then Some(TakenEntries([], bits)) else
      var e := TakeEntry(bits);
      if e.None? then None else
        var more := TakeEntries(e.value.rest, count - 1);
        if more.None? then None
        else Some(TakenEntries([e.value.resource] + more.value.resources, more.value.rest))
  }

  /** The whole list, which must end with one to eight zero bits at the end of the bytes. */
  function DecodeList(bytes: seq<bv8>): (rs: Option<seq<Resource>>)
    ensures rs.Some? ==> |rs.value| < 4096 && forall r <- rs.value :: 0 !in r.name
  {
    var opcode := Take(Unpacked(bytes), 8);
    if opcode.None? || opcode.value.value != OPCODE then None else
      var count := Take(opcode.value.rest, 12);
      if count.None? then None else
        var entries := TakeEntries(count.value.rest, count.value.value);
        assert Power(12) == 4096 by { PowerOfEight(); }
        if entries.None? || !(1 <= |entries.value.rest| <= 8) || true in entries.value.rest then None
        else Some(entries.value.resources)
  }

  // ---- the list decodes to what was written ----

  lemma TakeReads(v: nat, width: nat, t: seq<bool>)
    ensures Take(LowBits(v, width) + t, width) == Some(Taken(v % Power(width), t))
  {
    NumberOfLowBits(v, width);
    hide LowBits, Number, Power;
    assert (LowBits(v, width) + t)[..width] == LowBits(v, width) && (LowBits(v, width) + t)[width..] == t;
  }

  lemma TakeReadsSmall(v: nat, width: nat, t: seq<bool>)
    requires v < Power(width)
    ensures Take(LowBits(v, width) + t, width) == Some(Taken(v, t))
  {
    TakeReads(v, width, t);
    hide Take, LowBits;
    Quotient(v, Power(width), 0, v);
  }

  lemma {:induction false} NameReads(name: Name, t: seq<bool>)
    requires 0 !in name
    ensures TakeName(StringBits(name) + t) == Some(TakenName(name, t))
  {
    PowerOfEight();
    hide LowBits, Take, Power;
    if name == [] {
      assert StringBits(name) + t == LowBits(0, 8) + t;
      TakeReadsSmall(0, 8, t);
    } else {
      var c, rest := name[0], name[1..];
      assert c in name;
      NameReads(rest, t);
      assert StringBits(name) + t == LowBits(c, 8) + (StringBits(rest) + t);
      TakeReadsSmall(c, 8, StringBits(rest) + t);
      assert name == [c] + rest;
    }
  }

  lemma EntryReads(r: Resource, t: seq<bool>)
    requires 0 !in r.name && r.index < 4096
    ensures TakeEntry(EntryBits(r) + t) == Some(TakenEntry(r, t))
  {
    PowerOfEight();
    hide LowBits, Take, Power, StringBits, TakeName;
    var t4 := LowBits(0, 4) + t;
    var t3 := LowBits(0, 24) + t4;
    var t2 := LowBits(r.index, 12) + t3;
    var t1 := StringBits(r.name) + t2;
    assert EntryBits(r) + t == LowBits(MODEL, 4) + t1;
    TakeReadsSmall(MODEL, 4, t1);
    NameReads(r.name, t2);
    TakeReadsSmall(r.index, 12, t3);
    TakeReadsSmall(0, 24, t4);
    TakeReadsSmall(0, 4, t);
  }

  lemma {:induction false} EntriesRead(rs: seq<Resource>, t: seq<bool>)
    requires forall i :: 0 <= i < |rs| ==> 0 !in rs[i].name && rs[i].index < 4096
    ensures TakeEntries(EntriesBits(rs) + t, |rs|) == Some(TakenEntries(rs, t))
  {
    hide EntryBits, TakeEntry;
    if rs == [] {
      assert EntriesBits(rs) + t == t;
    } else {
      assert EntriesBits(rs) + t == EntryBits(rs[0]) + (EntriesBits(rs[1..]) + t);
      EntryReads(rs[0], EntriesBits(rs[1..]) + t);
      EntriesRead(rs[1..], t);
      assert rs == [rs[0]] + rs[1..];
    }
  }

  lemma WholeBytes(bytes: seq<bv8>, rs: seq<Resource>)
    requires Encodes(bytes, ListBits(rs))
    ensures Unpacked(bytes) == ListBits(rs) && |ListBits(rs)| % 8 == 0
  {
    hide LowBits, EntriesBits;
    UnpackedStarts(bytes, ListBits(rs));
  }

  lemma FittingListReads(rs: seq<Resource>, bytes: seq<bv8>)
    requires |rs| < 4096 && Unpacked(bytes) == ListBits(rs)
    requires forall i :: 0 <= i < |rs| ==> 0 !in rs[i].name && rs[i].index < 4096
    ensures DecodeList(bytes) == Some(rs)
  {
    PowerOfEight();
    hide LowBits, Take, Power, TakeEntries, EntriesBits, Unpacked;
    var entries := EntriesBits(rs);
    var n := 8 - |LowBits(OPCODE, 8) + LowBits(|rs|, 12) + entries| % 8;
    var padding := LowBits(0, n);
    assert ListBits(rs) == LowBits(OPCODE, 8) + (LowBits(|rs|, 12) + (entries + padding));
    TakeReadsSmall(OPCODE, 8, LowBits(|rs|, 12) + (entries + padding));
    TakeReadsSmall(|rs|, 12, entries + padding);
    EntriesRead(rs, padding);
    ZeroBits(n);
    assert true !in padding;
  }

  /** The list reads back - the same count, names and indices, then one to eight zero bits that end
      the last byte - exactly when its count fits twelve bits and no name holds a zero. */
  lemma ListReadsBack(o: Options, bytes: seq<bv8>)
    requires Encodes(bytes, ListBits(Resources(o)))
    ensures DecodeList(bytes) == Some(Resources(o))
            <==> |Resources(o)| < 4096 && forall r <- Resources(o) :: 0 !in r.name
  {
    var rs := Resources(o);
    WholeBytes(bytes, rs);
    hide ListBits, Encodes, Resources, Unpacked, DecodeList;
    if |rs| < 4096 && forall r <- rs :: 0 !in r.name {
      assert forall i :: 0 <= i < |rs| ==> rs[i] in rs;
      FittingListReads(rs, bytes);
    }
  }

  // ---- the encoder ----

  /** A slot number is kept in sixteen bits, of which twelve are written. */
  method WriteEntry(w: LsbBitWriter, name: Name, index: nat, ghost slot: nat)
    requires w.Valid() && index == slot % 65536
    modifies w
    ensures w.Valid() && w.contents == old(w.contents) + EntryBits(Resource(name, slot))
  {
    SlotBits(slot);
    hide LowBits, StringBits, Encodes;
    w.Write(MODEL, 4);
    w.WriteString(name);
    w.Write(index, 12);
    w.Write(0, 24);
    w.Write(0, 4);
  }

  lemma SlotBits(slot: nat)
    ensures LowBits(slot % 65536, 12) == LowBits(slot, 12) && LowBits(slot % 0x1_0000_0000, 12) == LowBits(slot, 12)
  {
    PowerOfEight();
    assert Power(16) == 65536 && Power(20) == 0x10_0000 && Power(24) == 0x100_0000;
    assert Power(28) == 0x1000_0000 && Power(32) == 0x1_0000_0000;
    LowBitsOfRemainder(slot, 16, 12);
    LowBitsOfRemainder(slot, 32, 12);
  }

  /** Entries for all of `names`, from `slot` on; they are resources `first` and following of `rs`. */
  method WriteEntries(w: LsbBitWriter, names: seq<Name>, slot: nat, ghost rs: seq<Resource>, ghost first: nat)
    returns (next: nat)
    requires w.Valid() && slot == first % 65536 && first + |names| <= |rs|
    requires forall i :: 0 <= i < |names| ==> rs[first + i] == Resource(names[i], first + i)
    modifies w
    ensures w.Valid() && next == (first + |names|) % 65536
    ensures w.contents == old(w.contents) + EntriesBits(rs[first..first + |names|])
  {
    hide LowBits, EntryBits, Encodes;
    next := slot;
    for i := 0 to |names|
      invariant w.Valid() && next == (first + i) % 65536
      invariant w.contents == old(w.contents) + EntriesBits(rs[first..first + i])
    {
      EntriesOneMore(rs, first, i);
      WriteEntry(w, names[i], next, first + i);
      next := (next + 1) % 65536;
    }
  }

  /** The message starts with the byte 43. */
  lemma StartsWithOpcode(rs: seq<Resource>, bytes: seq<bv8>)
    requires Encodes(bytes, ListBits(rs))
    ensures |bytes| > 2 && bytes[0] == 0x2b
  {
    LeastFirst();
    var bits, head := ListBits(rs), LowBits(OPCODE, 8);
    assert head == LowBits(43, 8) && |bits| > 20 && bits[..8] == head by { hide EntriesBits; }
    hide LowBits, ListBits;
    forall k | 0 <= k < 8 ensures Has(bytes[0], k) == Has(0x2b, k) {
      assert BitAt(bytes, k) == bits[k] == head[k];
      assert BitAt([0x2b], k) == head[k];
    }
    BitsDetermineByte(bytes[0], 0x2b);
  }


  method MakeResourceList(o: Options) returns (bytes: seq<bv8>, bitLength: nat)
    ensures Encodes(bytes, ListBits(Resources(o))) && bitLength == 8 * |bytes|
  {
    hide LowBits, EntryBits, EntriesBits, Encodes;
    ghost var rs := Resources(o);
    hide Resources;
    var w := new LsbBitWriter();
    w.Write(OPCODE, 8);
    SlotBits(|rs|);
    w.Write((1 + |o.models| + |o.sprites|) % 0x1_0000_0000, 12);
    ghost var head, m := w.contents, 1 + |o.models|;
    var slot := WriteEntries(w, [o.virtualMap], 0, rs, 0);
    slot := WriteEntries(w, o.models, slot, rs, 1);
    slot := WriteEntries(w, o.sprites, slot, rs, m);
    ThreeParts(rs, m);
    assert head == LowBits(OPCODE, 8) + LowBits(|rs|, 12);
    Gather(head, EntriesBits(rs[0..1]), EntriesBits(rs[1..m]), EntriesBits(rs[m..|rs|]));
    assert w.contents == head + EntriesBits(rs);
    w.TerminalPadding();
    assert w.contents == ListBits(rs);
    WholeBytes(w.bytes, rs);
    bytes, bitLength := w.bytes, w.bitLength;
  }

  lemma Gather(a: seq<bool>, b: seq<bool>, c: seq<bool>, d: seq<bool>)
    ensures a + b + c + d == a + (b + c + d)
  {
  }

  lemma Pieces(rs: seq<Resource>, m: nat)
    requires 1 <= m <= |rs|
    ensures rs[0..1] + rs[1..m] == rs[..m] && rs[..m] + rs[m..|rs|] == rs
  {
  }

  lemma ThreeParts(rs: seq<Resource>, m: nat)
    requires 1 <= m <= |rs|
    ensures EntriesBits(rs[0..1]) + EntriesBits(rs[1..m]) + EntriesBits(rs[m..|rs|]) == EntriesBits(rs)
  {
    hide EntriesBits;
    Pieces(rs, m);
    EntriesConcatenate(rs[0..1], rs[1..m]);
    EntriesConcatenate(rs[..m], rs[m..|rs|]);
  }

  lemma EntriesOneMore(rs: seq<Resource>, first: nat, i: nat)
    requires first + i < |rs|
    ensures EntriesBits(rs[first..first + i + 1]) == EntriesBits(rs[first..first + i]) + EntryBits(rs[first + i])
    ensures EntriesBits(rs[first..first]) == []
  {
    var r := rs[first + i];
    hide EntryBits;
    assert rs[first..first + i + 1] == rs[first..first + i] + [r];
    EntriesConcatenate(rs[first..first + i], [r]);
    assert [r][1..] == [] && EntryBits(r) + [] == EntryBits(r);
  }

  lemma {:induction false} EntriesConcatenate(a: seq<Resource>, b: seq<Resource>)
    ensures EntriesBits(a + b) == EntriesBits(a) + EntriesBits(b)
  {
    hide EntryBits;
    if a == [] {
      assert a + b == b;
    } else {
      assert (a + b)[0] == a[0] && (a + b)[1..] == a[1..] + b;
      EntriesConcatenate(a[1..], b);
    }
  }
}
