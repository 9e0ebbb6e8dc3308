/** The stored-entry archive of the startup export: its byte layout, and a reader that follows
    PKWARE APPNOTE.TXT (sections 4.3.7, 4.3.12 and 4.3.16) from the end record back. */
module Zip {
  import opened Arithmetic
  import opened Common
  import Crc32

  type Bytes = seq<Byte>

  datatype Entry = Entry(name: Bytes, bytes: Bytes)

  // ---- little-endian fields ----

  function ByteOf(v: nat): Byte { v % 256 }

  /** The byte as the eight bits that the checksum works on. */
  function AsBits(b: Byte): bv8 {
    (if b % 2 == 1 then 1 else 0) | (if b / 2 % 2 == 1 then 2 else 0)
    | (if b / 4 % 2 == 1 then 4 else 0) | (if b / 8 % 2 == 1 then 8 else 0)
    | (if b / 16 % 2 == 1 then 16 else 0) | (if b / 32 % 2 == 1 then 32 else 0)
    | (if b / 64 % 2 == 1 then 64 else 0) | (if b / 128 % 2 == 1 then 128 else 0)
  }

  function AllBits(bytes: Bytes): (bits: seq<bv8>)
    ensures |bits| == |bytes|
  {
    seq(|bytes|, i requires 0 <= i < |bytes| => AsBits(bytes[i]))
  }

  function Checksum(bytes: Bytes): nat { Crc32.Checksum(AllBits(bytes)) as int }

  lemma ChecksumOfBits(bytes: Bytes, crc: bv32)
    requires crc == Crc32.Checksum(AllBits(bytes))
    ensures crc as int == Checksum(bytes)
  {
  }

  function Power(width: nat): (p: nat)
    ensures p > 0
  {
    if width == 0 then 1 else 256 * Power(width - 1)
  }

  /** The low `width` bytes of `v`, the least significant one first. */
  function Le(width: nat, v: nat): (s: Bytes)
    ensures |s| == width
  {
    if width == 0 then [] else [ByteOf(v)] + Le(width - 1, v / 256)
  }

  function Value(s: Bytes): (v: nat)
    ensures v < Power(|s|)
  {
    if s == [] then 0 else s[0] + 256 * Value(s[1..])
  }

  /** What is left of `v` in a field of `width` bytes. */
  function Cut(width: nat, v: nat): nat { v % Power(width) }

  lemma {:induction false} ValueOfLe(width: nat, v: nat)
    ensures Value(Le(width, v)) == Cut(width, v)
  {
    if width > 0 {
      var s := Le(width, v);
      assert s[0] == ByteOf(v) && s[1..] == Le(width - 1, v / 256);
      ValueOfLe(width - 1, v / 256);
      SplitModulus(v, Power(width - 1));
    }
  }

  lemma SplitModulus(v: nat, p: nat)
    requires p > 0
    ensures v % (256 * p) == v % 256 + 256 * (v / 256 % p)
  {
    var q, r := v / 256, v % 256;
    assert q == p * (q / p) + q % p;
    assert v == (256 * p) * (q / p) + (256 * (q % p) + r);
    Quotient(v, 256 * p, q / p, 256 * (q % p) + r);
  }

  // ---- records: lists of fields ----

  datatype Field = Field(width: nat, value: nat)

  function Put(fields: seq<Field>): Bytes {
    if fields == [] then [] else Le(fields[0].width, fields[0].value) + Put(fields[1..])
  }

  function Widths(fields: seq<Field>): (widths: seq<nat>)
    ensures |widths| == |fields| && forall i :: 0 <= i < |fields| ==> widths[i] == fields[i].width
  {
    seq(|fields|, i requires 0 <= i < |fields| => fields[i].width)
  }

  function Values(fields: seq<Field>): (values: seq<nat>)
    ensures |values| == |fields|
    ensures forall i :: 0 <= i < |fields| ==> values[i] == Cut(fields[i].width, fields[i].value)
  {
    seq(|fields|, i requires 0 <= i < |fields| => Cut(fields[i].width, fields[i].value))
  }

  function Sum(widths: seq<nat>): nat {
    if widths == [] then 0 else widths[0] + Sum(widths[1..])
  }

  /** Reads one number for each width. */
  function Get(widths: seq<nat>, s: Bytes): (values: seq<nat>)
    requires |s| == Sum(widths)
    ensures |values| == |widths|
    ensures forall i :: 0 <= i < |widths| ==> values[i] < Power(widths[i])
  {
    if widths == [] then [] else [Value(s[..widths[0]])] + Get(widths[1..], s[widths[0]..])
  }

  lemma {:induction false} GetOfPut(fields: seq<Field>)
    ensures |Put(fields)| == Sum(Widths(fields))
    ensures Get(Widths(fields), Put(fields)) == Values(fields)
  {
    hide Le, Value, Power, Cut;
    if fields != [] {
      var f, rest := fields[0], fields[1..];
      GetOfPut(rest);
      ValueOfLe(f.width, f.value);
      assert Widths(fields)[1..] == Widths(rest) && Values(fields) == [Values(fields)[0]] + Values(rest);
      assert Put(fields)[..f.width] == Le(f.width, f.value) && Put(fields)[f.width..] == Put(rest);
    }
  }

  // ---- the archive ----

  const LOCAL_SIGNATURE := 0x04034b50
  const CENTRAL_SIGNATURE := 0x02014b50
  const END_SIGNATURE := 0x06054b50

  // The widths of the fixed part of each record, in bytes.
  function LocalLayout(): seq<nat> { [4, 2, 2, 2, 2, 2, 4, 4, 4, 2, 2] }
  function CentralLayout(): seq<nat> { [4, 2, 2, 2, 2, 2, 2, 4, 4, 4, 2, 2, 2, 2, 2, 4, 4] }
  function EndLayout(): seq<nat> { [4, 2, 2, 2, 2, 4, 4, 2] }

  function LocalFields(e: Entry): seq<Field> {
    [Field(4, LOCAL_SIGNATURE), Field(2, 20), Field(2, 0), Field(2, 0), Field(2, 0), Field(2, 33),
     Field(4, Checksum(e.bytes)), Field(4, |e.bytes|), Field(4, |e.bytes|),
     Field(2, |e.name|), Field(2, 0)]
  }

  function CentralFields(e: Entry, offset: nat): seq<Field> {
    [Field(4, CENTRAL_SIGNATURE), Field(2, 20), Field(2, 20), Field(2, 0), Field(2, 0), Field(2, 0), Field(2, 33),
     Field(4, Checksum(e.bytes)), Field(4, |e.bytes|), Field(4, |e.bytes|),
     Field(2, |e.name|), Field(2, 0), Field(2, 0), Field(2, 0), Field(2, 0), Field(4, 0), Field(4, offset)]
  }

  function EndFields(count: nat, size: nat, start: nat): seq<Field> {
    [Field(4, END_SIGNATURE), Field(2, 0), Field(2, 0), Field(2, count), Field(2, count),
     Field(4, size), Field(4, start), Field(2, 0)]
  }

  function LocalRecord(e: Entry): Bytes { Put(LocalFields(e)) + e.name + e.bytes }

  function CentralRecord(e: Entry, offset: nat): Bytes { Put(CentralFields(e, offset)) + e.name }

  function Locals(entries: seq<Entry>): Bytes {
    if entries == [] then [] else LocalRecord(entries[0]) + Locals(entries[1..])
  }

  /** The central directory of entries whose first local record stands at `offset`. */
  function Directory(entries: seq<Entry>, offset: nat): Bytes {
    if entries == [] then []
    else CentralRecord(entries[0], offset) + Directory(entries[1..], offset + |LocalRecord(entries[0])|)
  }

  function Archive(entries: seq<Entry>): Bytes {
    var locals, directory := Locals(entries), Directory(entries, 0);
    locals + directory + Put(EndFields(|entries|, |directory|, |locals|))
  }

  // ---- the reader ----

  /** The fields of a local or central record that matter to the reader. It reads what is `stored`: not
      compressed, with no flag set, on the one disk, by version 2.0 or earlier. */
  datatype Header = Header(signature: nat, stored: bool, crc: nat, packed: nat, size: nat,
                           name: nat, extra: nat, comment: nat, offset: nat)
  datatype End = End(signature: nat, single: bool, count: nat, size: nat, start: nat)

  function LocalHeader(s: Bytes): Header
    requires |s| == 30
  {
    LocalSize();
    var f := Get(LocalLayout(), s);
    Header(f[0], f[1] <= 20 && f[2] == f[3] == 0, f[6], f[7], f[8], f[9], f[10], 0, 0)
  }

  function CentralHeader(s: Bytes): Header
    requires |s| == 46
  {
    CentralSize();
    var f := Get(CentralLayout(), s);
    Header(f[0], f[2] <= 20 && f[3] == f[4] == f[13] == 0, f[7], f[8], f[9], f[10], f[11], f[12], f[16])
  }

  function EndHeader(s: Bytes): End
    requires |s| == 22
  {
    EndSize();
    var f := Get(EndLayout(), s);
    End(f[0], f[1] == f[2] == f[7] == 0 && f[3] == f[4], f[4], f[5], f[6])
  }

  datatype Local = Local(name: Bytes, bytes: Bytes, crc: nat, next: nat)
  datatype Central = Central(name: Bytes, size: nat, crc: nat, offset: nat, next: nat)

  /** The local record at `at`, which must end by `limit`. */
  function ReadLocal(zip: Bytes, at: nat, limit: nat): (l: Option<Local>)
    requires limit <= |zip|
  {
    if at + 30 > limit then None else
      var h := LocalHeader(zip[at..at + 30]);
      var name := at + 30;
      var data := name + h.name + h.extra;
      if h.signature != LOCAL_SIGNATURE || !h.stored || h.packed != h.size || data + h.size > limit then None
      else Some(Local(zip[name..name + h.name], zip[data..data + h.size], h.crc, data + h.size))
  }

  /** The central record at `at`, which must end by `limit`. */
  function ReadCentral(zip: Bytes, at: nat, limit: nat): (c: Option<Central>)
    requires limit <= |zip|
    ensures c.Some? ==> at < c.value.next <= limit
  {
    if at + 46 > limit then None else
      var h := CentralHeader(zip[at..at + 46]);
      var name := at + 46;
      var next := name + h.name + h.extra + h.comment;
      if h.signature != CENTRAL_SIGNATURE || !h.stored || h.packed != h.size || next > limit then None
      else Some(Central(zip[name..name + h.name], h.size, h.crc, h.offset, next))
  }

  predicate Agree(c: Central, l: Local) {
    l.name == c.name && |l.bytes| == c.size && l.crc == c.crc && Checksum(l.bytes) == c.crc
  }

  /** Reads `count` central records from `at` to `end`. Each must lead to the local record at `local`,
      right behind the one before, and the last local record must reach the directory at `start`. */
  function Walk(zip: Bytes, count: nat, at: nat, end: nat, local: nat, start: nat): Option<seq<Entry>>
    requires at <= end <= |zip| && start <= |zip|
  {
    if count == 0 then
      if at == end && local == start then Some([]) else None
    else
      var c, l := ReadCentral(zip, at, end), ReadLocal(zip, local, start);
      if c.None? || l.None? || c.value.offset != local || !Agree(c.value, l.value) then None
      else
        var rest := Walk(zip, count - 1, c.value.next, end, l.value.next, start);
        if rest.None? then None else Some([Entry(l.value.name, l.value.bytes)] + rest.value)
  }

  function Read(zip: Bytes): Option<seq<Entry>> {
    if |zip| < 22 then None else
      var end := |zip| - 22;
      var h := EndHeader(zip[end..]);
      if h.signature != END_SIGNATURE || !h.single || h.start + h.size != end then None
      else Walk(zip, h.count, h.start, end, 0, h.start)
  }

  lemma LocalSize()
    ensures Sum(LocalLayout()) == 30
  {
    assert Sum([4, 4, 4, 2, 2]) == 16;
  }

  lemma CentralSize()
    ensures Sum(CentralLayout()) == 46
  {
    assert Sum([2, 2, 2, 2, 4, 4]) == 16;
    assert Sum([4, 4, 2, 2, 2, 2, 2, 4, 4]) == 26;
  }

  lemma EndSize()
    ensures Sum(EndLayout()) == 22
  {
    assert Sum([2, 4, 4, 2]) == 12;
  }

  // ---- what the reader finds in a written archive ----

  const WORD: nat := 0x1_0000_0000

  /** The sizes fit the 16-bit and 32-bit fields. */
  predicate Fits(entries: seq<Entry>) {
    && |entries| < 0x1_0000
    && (forall i :: 0 <= i < |entries| ==> |entries[i].name| < 0x1_0000 && |entries[i].bytes| < WORD)
    && |Locals(entries)| < WORD && |Directory(entries, 0)| < WORD
  }

  lemma Cuts(v: nat)
    ensures Cut(2, v) == v % 0x1_0000 && Cut(4, v) == v % WORD
    ensures v < 0x1_0000 ==> Cut(2, v) == v
    ensures v < WORD ==> Cut(4, v) == v
  {
    assert Power(2) == 0x1_0000 && Power(4) == WORD;
  }

  lemma FieldsRead(fields: seq<Field>, layout: seq<nat>)
    requires Widths(fields) == layout
    ensures |Put(fields)| == Sum(layout) && Get(layout, Put(fields)) == Values(fields)
  {
    GetOfPut(fields);
  }

  lemma LocalValues(e: Entry, v: seq<nat>)
    requires v == Values(LocalFields(e))
    ensures Widths(LocalFields(e)) == LocalLayout() && |v| == 11
    ensures v[0] == LOCAL_SIGNATURE && v[1] == 20 && v[2] == v[3] == 0 && v[6] == Checksum(e.bytes)
    ensures v[7] == v[8] == Cut(4, |e.bytes|) && v[9] == Cut(2, |e.name|) && v[10] == 0
  {
    Cuts(LOCAL_SIGNATURE);
    Cuts(20);
    Cuts(0);
    Cuts(Checksum(e.bytes));
    hide Put, Get, Power, Sum, Widths, Values, Cut, Checksum;
  }

  lemma CentralWidths(e: Entry, offset: nat)
    ensures Widths(CentralFields(e, offset)) == CentralLayout()
  {
    hide Widths, Checksum;
  }

  lemma CentralValues(e: Entry, offset: nat, v: seq<nat>)
    requires v == Values(CentralFields(e, offset))
    ensures |v| == 17
    ensures v[0] == CENTRAL_SIGNATURE && v[7] == Checksum(e.bytes)
    ensures v[8] == v[9] == Cut(4, |e.bytes|) && v[10] == Cut(2, |e.name|)
    ensures v[2] == 20 && v[3] == v[4] == v[11] == v[12] == v[13] == 0 && v[16] == Cut(4, offset)
  {
    var f := CentralFields(e, offset);
    CentralFront(e, offset);
    CentralBack(e, offset);
    Cuts(CENTRAL_SIGNATURE);
    Cuts(20);
    Cuts(0);
    Cuts(Checksum(e.bytes));
    hide CentralFields, Put, Get, Power, Sum, Widths, Cut, Checksum;
    assert forall i :: 0 <= i < 17 ==> v[i] == Cut(f[i].width, f[i].value);
    hide Values;
  }

  lemma CentralFront(e: Entry, offset: nat)
    ensures var f := CentralFields(e, offset);
            && |f| == 17 && f[0] == Field(4, CENTRAL_SIGNATURE) && f[2] == Field(2, 20)
            && f[3] == f[4] == Field(2, 0) && f[7] == Field(4, Checksum(e.bytes))
  {
    hide Checksum;
  }

  lemma CentralBack(e: Entry, offset: nat)
    ensures var f := CentralFields(e, offset);
            && |f| == 17 && f[8] == f[9] == Field(4, |e.bytes|) && f[10] == Field(2, |e.name|)
            && f[11] == f[12] == f[13] == Field(2, 0) && f[16] == Field(4, offset)
  {
    hide Checksum;
  }

  lemma EndValues(count: nat, size: nat, start: nat, v: seq<nat>)
    requires v == Values(EndFields(count, size, start))
    ensures Widths(EndFields(count, size, start)) == EndLayout() && |v| == 8
    ensures v[0] == END_SIGNATURE && v[1] == v[2] == v[7] == 0 && v[3] == v[4] == Cut(2, count)
    ensures v[5] == Cut(4, size) && v[6] == Cut(4, start)
  {
    Cuts(END_SIGNATURE);
    Cuts(0);
    hide Put, Get, Power, Sum, Widths, Values, Cut;
  }

  lemma LocalHeaderReads(e: Entry)
    ensures |Put(LocalFields(e))| == 30
    ensures LocalHeader(Put(LocalFields(e)))
            == Header(LOCAL_SIGNATURE, true, Checksum(e.bytes),
                      Cut(4, |e.bytes|), Cut(4, |e.bytes|), Cut(2, |e.name|), 0, 0, 0)
  {
    var fields := LocalFields(e);
    LocalValues(e, Values(fields));
    FieldsRead(fields, LocalLayout());
    LocalSize();
    hide LocalFields, Put, Get, Sum, Values, Widths, Cut, LocalLayout, Checksum;
  }

  lemma CentralHeaderReads(e: Entry, offset: nat)
    ensures |Put(CentralFields(e, offset))| == 46
    ensures CentralHeader(Put(CentralFields(e, offset)))
            == Header(CENTRAL_SIGNATURE, true, Checksum(e.bytes),
                      Cut(4, |e.bytes|), Cut(4, |e.bytes|), Cut(2, |e.name|), 0, 0, Cut(4, offset))
  {
    var fields := CentralFields(e, offset);
    CentralWidths(e, offset);
    CentralValues(e, offset, Values(fields));
    FieldsRead(fields, CentralLayout());
    CentralSize();
    hide CentralFields, Put, Get, Sum, Values, Widths, Cut, CentralLayout, Checksum;
  }

  lemma EndHeaderReads(count: nat, size: nat, start: nat)
    ensures |Put(EndFields(count, size, start))| == 22
    ensures EndHeader(Put(EndFields(count, size, start)))
            == End(END_SIGNATURE, true, Cut(2, count), Cut(4, size), Cut(4, start))
  {
    var fields := EndFields(count, size, start);
    EndValues(count, size, start, Values(fields));
    FieldsRead(fields, EndLayout());
    EndSize();
    hide EndFields, Put, Get, Sum, Values, Widths, Cut, EndLayout;
  }

  lemma Within(zip: Bytes, at: nat, end: nat, i: nat, j: nat)
    requires at <= end <= |zip| && i <= j <= end - at
    ensures zip[at..end][i..j] == zip[at + i..at + j]
  {
    var x, y := zip[at..end][i..j], zip[at + i..at + j];
    assert |x| == |y| && forall k :: 0 <= k < |x| ==> x[k] == zip[at + i + k] == y[k];
  }

  lemma Parts(zip: Bytes, at: nat, x: Bytes, y: Bytes, z: Bytes)
    requires at + |x| + |y| + |z| <= |zip| && zip[at..at + |x| + |y| + |z|] == x + y + z
    ensures zip[at..at + |x|] == x
    ensures zip[at + |x|..at + |x| + |y|] == y
    ensures zip[at + |x| + |y|..at + |x| + |y| + |z|] == z
  {
    var end := at + |x| + |y| + |z|;
    Within(zip, at, end, 0, |x|);
    Within(zip, at, end, |x|, |x| + |y|);
    Within(zip, at, end, |x| + |y|, |x| + |y| + |z|);
    assert (x + y + z)[0..|x|] == x && (x + y + z)[|x|..|x| + |y|] == y;
    assert (x + y + z)[|x| + |y|..|x| + |y| + |z|] == z;
    assert zip[at..end] == x + y + z;
  }

  lemma LocalReads(zip: Bytes, at: nat, limit: nat, e: Entry)
    requires at + |LocalRecord(e)| <= limit <= |zip|
    requires zip[at..at + |LocalRecord(e)|] == LocalRecord(e)
    requires |e.name| < 0x1_0000 && |e.bytes| < WORD
    ensures ReadLocal(zip, at, limit)
            == Some(Local(e.name, e.bytes, Checksum(e.bytes), at + |LocalRecord(e)|))
  {
    hide Put, Cut, LocalFields, LocalHeader, Checksum;
    LocalHeaderReads(e);
    Cuts(|e.name|);
    Cuts(|e.bytes|);
    Parts(zip, at, Put(LocalFields(e)), e.name, e.bytes);
  }

  lemma CentralReads(zip: Bytes, at: nat, limit: nat, e: Entry, offset: nat)
    requires at + |CentralRecord(e, offset)| <= limit <= |zip|
    requires zip[at..at + |CentralRecord(e, offset)|] == CentralRecord(e, offset)
    requires |e.name| < 0x1_0000 && |e.bytes| < WORD && offset < WORD
    ensures ReadCentral(zip, at, limit)
            == Some(Central(e.name, |e.bytes|, Checksum(e.bytes), offset, at + |CentralRecord(e, offset)|))
  {
    hide Put, Cut, CentralFields, CentralHeader, Checksum;
    CentralHeaderReads(e, offset);
    Cuts(|e.name|);
    Cuts(|e.bytes|);
    Cuts(offset);
    Halves(zip, at, at + |CentralRecord(e, offset)|, Put(CentralFields(e, offset)), e.name);
  }

  lemma {:induction false} WalkReads(zip: Bytes, rest: seq<Entry>, at: nat, end: nat, local: nat, start: nat)
    requires at <= end <= |zip| && local <= start <= |zip| && start < WORD
    requires zip[at..end] == Directory(rest, local) && zip[local..start] == Locals(rest)
    requires forall i :: 0 <= i < |rest| ==> |rest[i].name| < 0x1_0000 && |rest[i].bytes| < WORD
    ensures Walk(zip, |rest|, at, end, local, start) == Some(rest)
  {
    hide LocalRecord, CentralRecord, ReadLocal, ReadCentral, Checksum;
    if rest != [] {
      var e := rest[0];
      var a, l := CentralRecord(e, local), LocalRecord(e);
      Halves(zip, at, end, a, Directory(rest[1..], local + |l|));
      Halves(zip, local, start, l, Locals(rest[1..]));
      CentralReads(zip, at, end, e, local);
      LocalReads(zip, local, start, e);
      WalkReads(zip, rest[1..], at + |a|, end, local + |l|, start);
      assert rest == [e] + rest[1..];
    }
  }

  lemma Halves(zip: Bytes, at: nat, end: nat, x: Bytes, y: Bytes)
    requires at <= end <= |zip| && zip[at..end] == x + y
    ensures at + |x| <= end && zip[at..at + |x|] == x && zip[at + |x|..end] == y
  {
    assert x + y + [] == x + y;
    assert end == at + |x| + |y| + 0;
    Parts(zip, at, x, y, []);
  }

  /** The end record of an archive leads to its directory. */
  lemma EndReads(zip: Bytes, locals: Bytes, directory: Bytes, tail: Bytes, count: nat)
    requires zip == locals + directory + tail && |tail| == 22
    requires EndHeader(tail) == End(END_SIGNATURE, true, count, |directory|, |locals|)
    ensures Read(zip) == Walk(zip, count, |locals|, |zip| - 22, 0, |locals|)
    ensures zip[0..|locals|] == locals && zip[|locals|..|zip| - 22] == directory
  {
    hide EndHeader, Walk;
    assert zip[|zip| - 22..] == tail;
  }

  lemma ArchiveEnd(entries: seq<Entry>)
    requires Fits(entries)
    ensures var zip, locals := Archive(entries), Locals(entries);
            && |zip| == |locals| + |Directory(entries, 0)| + 22
            && Read(zip) == Walk(zip, |entries|, |locals|, |zip| - 22, 0, |locals|)
            && zip[0..|locals|] == locals && zip[|locals|..|zip| - 22] == Directory(entries, 0)
  {
    var locals, directory := Locals(entries), Directory(entries, 0);
    EndHeaderReads(|entries|, |directory|, |locals|);
    Cuts(|entries|);
    Cuts(|directory|);
    Cuts(|locals|);
    hide Put, Cut, EndFields, EndHeader, Locals, Directory, Walk, Read;
    var tail := Put(EndFields(|entries|, |directory|, |locals|));
    EndReads(Archive(entries), locals, directory, tail, |entries|);
  }

  /** A reader that starts at the end record recovers exactly the names and bytes that were written,
      with checksums that agree and no byte outside the records. */
  lemma FittingArchivesReadBack(entries: seq<Entry>)
    requires Fits(entries)
    ensures Read(Archive(entries)) == Some(entries)
  {
    hide Locals, Directory, Archive, Read, Walk;
    ArchiveEnd(entries);
    var zip, start := Archive(entries), |Locals(entries)|;
    assert start < WORD && forall i :: 0 <= i < |entries| ==> |entries[i].name| < 0x1_0000 && |entries[i].bytes| < WORD;
    hide Fits;
    WalkReads(zip, entries, start, |zip| - 22, 0, start);
  }

  lemma LocalBounds(s: Bytes)
    requires |s| == 30
    ensures LocalHeader(s).name < 0x1_0000 && LocalHeader(s).size < WORD
  {
    assert Power(2) == 0x1_0000 && Power(4) == WORD;
    hide Power;
    LocalSize();
    assert LocalLayout()[8] == 4 && LocalLayout()[9] == 2;
    hide Get, LocalLayout, Sum;
  }

  lemma EndBounds(s: Bytes)
    requires |s| == 22
    ensures EndHeader(s).count < 0x1_0000 && EndHeader(s).size < WORD && EndHeader(s).start < WORD
  {
    assert Power(2) == 0x1_0000 && Power(4) == WORD;
    hide Power;
    EndSize();
    assert EndLayout()[4] == 2 && EndLayout()[5] == EndLayout()[6] == 4;
    hide Get, EndLayout, Sum;
  }

  lemma RecordLengths(e: Entry, offset: nat)
    ensures |LocalRecord(e)| == 30 + |e.name| + |e.bytes| && |CentralRecord(e, offset)| == 46 + |e.name|
  {
    hide LocalFields, CentralFields, Put;
    LocalHeaderReads(e);
    CentralHeaderReads(e, offset);
  }

  lemma ReadBounds(zip: Bytes, at: nat, end: nat, local: nat, start: nat)
    requires end <= |zip| && start <= |zip|
    ensures var c, l := ReadCentral(zip, at, end), ReadLocal(zip, local, start);
            && (c.Some? ==> at + 46 + |c.value.name| <= c.value.next <= end)
            && (l.Some? ==> local + 30 + |l.value.name| + |l.value.bytes| <= l.value.next <= start
                            && |l.value.name| < 0x1_0000 && |l.value.bytes| < WORD)
  {
    hide LocalHeader, CentralHeader;
    if local + 30 <= start { LocalBounds(zip[local..local + 30]); }
  }

  /** Whatever the reader finds lies within the bounds it was given. */
  lemma {:induction false} WalkBounds(zip: Bytes, count: nat, at: nat, end: nat, local: nat, start: nat)
    requires at <= end <= |zip| && start <= |zip|
    ensures var found := Walk(zip, count, at, end, local, start);
            found.Some? ==>
              && |found.value| == count
              && (forall i :: 0 <= i < count ==>
                    |found.value[i].name| < 0x1_0000 && |found.value[i].bytes| < WORD)
              && at + |Directory(found.value, local)| <= end && local + |Locals(found.value)| <= start
  {
    hide ReadLocal, ReadCentral, LocalRecord, CentralRecord, Checksum;
    var found := Walk(zip, count, at, end, local, start);
    if found.Some? && count > 0 {
      var c, l := ReadCentral(zip, at, end).value, ReadLocal(zip, local, start).value;
      var e, rest := found.value[0], found.value[1..];
      assert rest == Walk(zip, count - 1, c.next, end, l.next, start).value;
      ReadBounds(zip, at, end, local, start);
      WalkBounds(zip, count - 1, c.next, end, l.next, start);
      RecordLengths(e, local);
      DirectoryLength(rest, l.next, local + |LocalRecord(e)|);
    }
  }

  lemma {:induction false} DirectoryLength(entries: seq<Entry>, a: nat, b: nat)
    ensures |Directory(entries, a)| == |Directory(entries, b)|
  {
    hide CentralRecord, LocalRecord;
    if entries != [] {
      RecordLengths(entries[0], a);
      RecordLengths(entries[0], b);
      DirectoryLength(entries[1..], a + |LocalRecord(entries[0])|, b + |LocalRecord(entries[0])|);
    }
  }

  /** An archive reads back as what was written exactly when every size fits its field. */
  lemma ArchivesReadBack(entries: seq<Entry>)
    ensures Read(Archive(entries)) == Some(entries) <==> Fits(entries)
  {
    hide Locals, Directory, Archive, Walk, EndHeader;
    if Fits(entries) {
      FittingArchivesReadBack(entries);
    }
    var zip := Archive(entries);
    if Read(zip) == Some(entries) {
      var tail := zip[|zip| - 22..];
      EndBounds(tail);
      var h := EndHeader(tail);
      WalkBounds(zip, h.count, h.start, |zip| - 22, 0, h.start);
    }
  }
}
