/** The archive as the startup export writes it: bytes pushed one after another, and offsets
    stored into the entries on the way. */
module ZipWriter {
  import opened Common
  import opened Zip
  import Crc32

  /** An entry with the checksum and the offset that the writer keeps beside it. */
  datatype Packed = Packed(name: Bytes, bytes: Bytes, crc: bv32, offset: nat) {
    function Plain(): Entry { Entry(name, bytes) }
    predicate Sealed() { crc as int == Checksum(bytes) }
  }

  // ---- appending to the specification's sequences ----

  lemma {:induction false} PutConcatenates(x: seq<Field>, y: seq<Field>)
    ensures Put(x + y) == Put(x) + Put(y)
  {
    hide Le;
    if x == [] {
      assert x + y == y;
    } else {
      assert (x + y)[0] == x[0] && (x + y)[1..] == x[1..] + y;
      PutConcatenates(x[1..], y);
    }
  }

  lemma PutOneMore(fields: seq<Field>, f: Field)
    ensures Put(fields + [f]) == Put(fields) + Le(f.width, f.value)
  {
    PutConcatenates(fields, [f]);
    assert [f][1..] == [];
    assert Put([f]) == Le(f.width, f.value);
  }

  lemma {:induction false} LocalsOneMore(entries: seq<Entry>, e: Entry)
    ensures Locals(entries + [e]) == Locals(entries) + LocalRecord(e)
  {
    hide LocalRecord;
    if entries == [] {
      assert entries + [e] == [e] && [e][1..] == [];
    } else {
      assert (entries + [e])[0] == entries[0] && (entries + [e])[1..] == entries[1..] + [e];
      LocalsOneMore(entries[1..], e);
    }
  }

  lemma {:induction false} DirectoryOneMore(entries: seq<Entry>, e: Entry, offset: nat)
    ensures Directory(entries + [e], offset)
            == Directory(entries, offset) + CentralRecord(e, offset + |Locals(entries)|)
  {
    hide LocalRecord, CentralRecord;
    if entries == [] {
      assert entries + [e] == [e] && [e][1..] == [];
    } else {
      assert (entries + [e])[0] == entries[0] && (entries + [e])[1..] == entries[1..] + [e];
      DirectoryOneMore(entries[1..], e, offset + |LocalRecord(entries[0])|);
    }
  }

  lemma SmallLe(v: nat)
    ensures Le(2, v) == [ByteOf(v), ByteOf(v / 256)]
    ensures Le(4, v) == Le(2, v) + Le(2, v / 256 / 256)
  {
    hide ByteOf;
    assert Le(1, v / 256) == [ByteOf(v / 256)];
    assert Le(4, v) == [ByteOf(v)] + ([ByteOf(v / 256)] + Le(2, v / 256 / 256));
  }

  lemma SecondByte(v: nat)
    ensures v % 0x1_0000 % 256 == v % 256 && v % 0x1_0000 / 256 % 256 == v / 256 % 256
  {
    var q, r := v / 0x1_0000, v % 0x1_0000;
    assert v == 0x1_0000 * q + r;
    assert v / 256 == 256 * q + r / 256;
  }

  /** Only the low bytes matter. */
  lemma LowHalf(v: nat)
    ensures Le(2, v % 0x1_0000) == Le(2, v)
  {
    hide ByteOf, Le;
    SmallLe(v);
    SmallLe(v % 0x1_0000);
    SecondByte(v);
    SameByte(v % 0x1_0000, v);
    SameByte(v % 0x1_0000 / 256, v / 256);
  }

  lemma SameByte(a: nat, b: nat)
    requires a % 256 == b % 256
    ensures ByteOf(a) == ByteOf(b)
  {
  }

  // ---- the writer ----

  ghost function SharedFields(e: Entry): seq<Field> {
    [Field(2, 20), Field(2, 0), Field(2, 0), Field(2, 0), Field(2, 33),
     Field(4, Checksum(e.bytes)), Field(4, |e.bytes|), Field(4, |e.bytes|),
     Field(2, |e.name|), Field(2, 0)]
  }

  class ArchiveWriter {
    var zip: Bytes
    ghost var base: Bytes             // what was written before the current record
    ghost var fields: seq<Field>      // the fields of the current record so far

    ghost predicate Valid()
      reads this
    {
      zip == base + Put(fields)
    }

    constructor ()
      ensures Valid() && zip == []
    {
      zip, base, fields := [], [], [];
    }

    ghost method BeginRecord()
      modifies this`base, this`fields
      ensures Valid() && base == zip && fields == []
    {
      base, fields := zip, [];
    }

    /** Pushes the low 16 bits. */
    method U16(value: nat)
      requires Valid()
      modifies this`zip, this`fields
      ensures Valid() && fields == old(fields) + [Field(2, value)]
    {
      zip := zip + [ByteOf(value)];
      zip := zip + [ByteOf(value / 256)];
      SmallLe(value);
      PutOneMore(fields, Field(2, value));
      fields := fields + [Field(2, value)];
    }

    /** Pushes the low 32 bits, the low half first. */
    method U32(value: nat)
      requires Valid()
      modifies this`zip, this`fields
      ensures Valid() && fields == old(fields) + [Field(4, value)]
    {
      hide Put, Le;
      ghost var before := fields;
      U16(value % 0x1_0000);
      U16(value / 0x1_0000);
      PutOneMore(before, Field(2, value % 0x1_0000));
      PutOneMore(before + [Field(2, value % 0x1_0000)], Field(2, value / 0x1_0000));
      LowHalf(value);
      SmallLe(value);
      PutOneMore(before, Field(4, value));
      fields := before + [Field(4, value)];
    }

    /** The fields that local and central records share. */
    method Shared(e: Packed)
      requires Valid() && e.Sealed()
      modifies this`zip, this`fields
      ensures Valid() && fields == old(fields) + SharedFields(e.Plain())
    {
      hide Checksum, Put, Le;
      U16(20); U16(0); U16(0); U16(0); U16(33); U32(e.crc as int);
      U32(|e.bytes|); U32(|e.bytes|);
      U16(|e.name|); U16(0);
    }

    method Local(e: Packed)
      requires e.Sealed()
      modifies this
      ensures zip == old(zip) + LocalRecord(e.Plain())
    {
      hide Checksum, Put, Le;
      BeginRecord();
      U32(LOCAL_SIGNATURE);
      Shared(e);
      assert fields == LocalFields(e.Plain());
      zip := zip + e.name;
      zip := zip + e.bytes;
    }

    /** No comment, disk zero, no attributes, and where the local record is. */
    method Attributes(offset: nat)
      requires Valid()
      modifies this`zip, this`fields
      ensures Valid()
      ensures fields == old(fields) + [Field(2, 0), Field(2, 0), Field(2, 0), Field(4, 0), Field(4, offset)]
    {
      hide Put, Le;
      U16(0); U16(0); U16(0); U32(0); U32(offset);
    }

    method Central(e: Packed)
      requires e.Sealed()
      modifies this
      ensures zip == old(zip) + CentralRecord(e.Plain(), e.offset)
    {
      hide Checksum, Put, Le;
      BeginRecord();
      U32(CENTRAL_SIGNATURE);
      U16(20);
      Shared(e);
      Attributes(e.offset);
      assert fields == CentralFields(e.Plain(), e.offset);
      zip := zip + e.name;
    }

    method EndOfDirectory(count: nat, size: nat, start: nat)
      modifies this
      ensures zip == old(zip) + Put(EndFields(count, size, start))
    {
      hide Put, Le;
      BeginRecord();
      U32(END_SIGNATURE); U16(0); U16(0); U16(count); U16(count); U32(size); U32(start); U16(0);
      assert fields == EndFields(count, size, start);
    }
  }

  ghost function Plains(entries: seq<Packed>): (plain: seq<Entry>)
    ensures |plain| == |entries| && forall i :: 0 <= i < |entries| ==> plain[i] == entries[i].Plain()
  {
    seq(|entries|, i requires 0 <= i < |entries| => entries[i].Plain())
  }

  lemma NothingWritten()
    ensures Locals([]) == [] && Directory([], 0) == []
  {
  }

  method WriteArchive(entries: array<Packed>) returns (zip: Bytes)
    requires forall i :: 0 <= i < entries.Length ==> entries[i].Sealed()
    modifies entries
    ensures zip == Archive(Plains(old(entries[..])))
  {
    hide Put, LocalRecord, CentralRecord, Checksum, Locals, Directory, EndFields;
    assert Locals([]) == [] && Directory([], 0) == [] by { NothingWritten(); }
    ghost var plain := Plains(entries[..]);
    var w := new ArchiveWriter();
    for i := 0 to entries.Length
      invariant fresh(w) && w.zip == Locals(plain[..i])
      invariant forall k :: 0 <= k < entries.Length ==> entries[k].Plain() == plain[k] && entries[k].Sealed()
      invariant forall k :: 0 <= k < i ==> entries[k].offset == |Locals(plain[..k])|
    {
      entries[i] := entries[i].(offset := |w.zip|);
      w.Local(entries[i]);
      LocalsOneMore(plain[..i], plain[i]);
      assert plain[..i + 1] == plain[..i] + [plain[i]];
    }
    assert plain[..entries.Length] == plain;
    var central := |w.zip|;
    for i := 0 to entries.Length
      invariant fresh(w) && w.zip == Locals(plain) + Directory(plain[..i], 0)
      invariant forall k :: 0 <= k < entries.Length ==> entries[k].Plain() == plain[k] && entries[k].Sealed()
      invariant forall k :: 0 <= k < entries.Length ==> entries[k].offset == |Locals(plain[..k])|
    {
      w.Central(entries[i]);
      DirectoryOneMore(plain[..i], plain[i], 0);
      assert plain[..i + 1] == plain[..i] + [plain[i]];
    }
    w.EndOfDirectory(entries.Length, |w.zip| - central, central);
    zip := w.zip;
  }

  // ---- the export ----

  const MAXIMUM_ARTIFACT: nat := 131072

  function Ascii(s: string): (b: Bytes)
    ensures |b| == |s|
  {
    seq(|s|, i requires 0 <= i < |s| => ByteOf(s[i] as int))
  }

  function Leaves(): seq<string> { ["launcher-startup.log", "client-startup.log", "startup-summary.txt"] }

  /** The entries of the leaves that could be read, in order. */
  function Found(names: seq<string>, contents: seq<Option<Bytes>>): seq<Entry>
    requires |names| == |contents|
  {
    if names == [] then []
    else
      (if contents[0].Some? then [Entry(Ascii(names[0]), contents[0].value)] else [])
      + Found(names[1..], contents[1..])
  }

  lemma {:induction false} FoundIsSmall(names: seq<string>, contents: seq<Option<Bytes>>, offset: nat)
    requires |names| == |contents| && (forall n <- names :: |n| <= 20)
    requires forall c <- contents :: c.Some? ==> |c.value| <= MAXIMUM_ARTIFACT
    ensures var found := Found(names, contents);
            && |found| <= |names|
            && (forall e <- found :: |e.name| <= 20 && |e.bytes| <= MAXIMUM_ARTIFACT)
            && |Locals(found)| <= 131122 * |names|
            && |Directory(found, offset)| <= 66 * |names|
  {
    hide Ascii, LocalRecord, CentralRecord;
    if names != [] {
      var rest := Found(names[1..], contents[1..]);
      if contents[0].None? {
        FoundIsSmall(names[1..], contents[1..], offset);
        assert Found(names, contents) == rest;
      } else {
        var e := Entry(Ascii(names[0]), contents[0].value);
        assert Found(names, contents) == [e] + rest && ([e] + rest)[1..] == rest;
        assert |e.name| == |names[0]| && names[0] in names && contents[0] in contents;
        RecordLengths(e, offset);
        FoundIsSmall(names[1..], contents[1..], offset + |LocalRecord(e)|);
      }
    }
  }

  /** Every archive the export writes reads back, because its leaves are few and bounded. */
  lemma ExportReadsBack(contents: seq<Option<Bytes>>)
    requires |contents| == 3
    requires forall c <- contents :: c.Some? ==> |c.value| <= MAXIMUM_ARTIFACT
    ensures Read(Archive(Found(Leaves(), contents))) == Some(Found(Leaves(), contents))
  {
    hide Found, Locals, Directory, Archive, Read;
    FoundIsSmall(Leaves(), contents, 0);
    ArchivesReadBack(Found(Leaves(), contents));
  }

  /** Writes an archive of the leaves that could be read; none of them, no archive. */
  method ExportZip(contents: seq<Option<Bytes>>) returns (zip: Option<Bytes>)
    requires |contents| == 3
    ensures zip == if Found(Leaves(), contents) == [] then None else Some(Archive(Found(Leaves(), contents)))
  {
    hide Archive, Ascii, Checksum;
    var names, entries: seq<Packed> := Leaves(), [];
    for i := 0 to |names|
      invariant Plains(entries) == Found(names[..i], contents[..i])
      invariant forall e <- entries :: e.Sealed()
    {
      FoundOneMore(names[..i], contents[..i], names[i], contents[i]);
      assert names[..i + 1] == names[..i] + [names[i]] && contents[..i + 1] == contents[..i] + [contents[i]];
      if contents[i].Some? {
        var crc := Crc32.ComputeChecksum(AllBits(contents[i].value));
        ChecksumOfBits(contents[i].value, crc);
        var e := Packed(Ascii(names[i]), contents[i].value, crc, 0);
        assert Plains(entries + [e]) == Plains(entries) + [e.Plain()];
        entries := entries + [e];
      }
    }
    assert names[..|names|] == names && contents[..|names|] == contents;
    if entries == [] { return None; }
    var packed := new Packed[|entries|](i requires 0 <= i < |entries| => entries[i]);
    assert packed[..] == entries;
    var bytes := WriteArchive(packed);
    zip := Some(bytes);
  }

  lemma {:induction false} FoundOneMore(names: seq<string>, contents: seq<Option<Bytes>>, name: string,
                content: Option<Bytes>)
    requires |names| == |contents|
    ensures Found(names + [name], contents + [content])
            == Found(names, contents) + (if content.Some? then [Entry(Ascii(name), content.value)] else [])
  {
    hide Ascii;
    if names == [] {
      assert names + [name] == [name] && contents + [content] == [content];
      assert [name][1..] == [] && [content][1..] == [];
    } else {
      assert (names + [name])[1..] == names[1..] + [name] && (contents + [content])[1..] == contents[1..] + [content];
      FoundOneMore(names[1..], contents[1..], name, content);
    }
  }
}
