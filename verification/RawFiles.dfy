/** What a journal entry says of the raw file beside it: the file's name and the spelling of its digest. */
module RawFiles {
  import opened Common
  import opened RelayTypes
  import Decimal

  datatype Label = Label(rawFilename: string, sha256: string)

  // ---- file names ----

  function Suffix(d: Direction): (s: string)
    ensures |s| == 8
  {
    if d == ClientToServer then "-c2s.bin" else "-s2c.bin"
  }

  /** At least `width` digits, zeros in front. */
  function Padded(n: nat, width: nat): (s: string)
    ensures Decimal.Digits(s)
  {
    var digits := Decimal.Print(n);
    Zeros(width - |digits|) + digits
  }

  function Zeros(count: int): (s: string)
    ensures Decimal.Digits(s) && |s| == (if count < 0 then 0 else count)
  {
    if count <= 0 then "" else "0" + Zeros(count - 1)
  }

  /** The name that the relay gives the file of a datagram. */
  function RawName(ordinal: nat, d: Direction): string { Padded(ordinal, 8) + Suffix(d) }

  /** The name that the validator accepts for an entry. */
  predicate NamesEntry(name: string, ordinal: nat, d: Direction) {
    && |name| == 16 && name[8..] == Suffix(d)
    && Decimal.Digits(name[..8]) && Decimal.Value(name[..8]) == ordinal
  }

  lemma {:induction false} ZerosInFront(count: nat, s: string)
    requires Decimal.Digits(s)
    ensures Decimal.Value(Zeros(count) + s) == Decimal.Value(s)
    decreases |s| + count
  {
    var t := Zeros(count) + s;
    if s == "" {
      assert t == Zeros(count);
      ZerosAreNothing(count);
    } else {
      assert t[..|t| - 1] == Zeros(count) + s[..|s| - 1] && t[|t| - 1] == s[|s| - 1];
      ZerosInFront(count, s[..|s| - 1]);
    }
  }

  lemma {:induction false} ZerosAreNothing(count: nat)
    ensures Decimal.Value(Zeros(count)) == 0 && forall i :: 0 <= i < count ==> Zeros(count)[i] == '0'
  {
    if count > 0 {
      ZerosAreNothing(count - 1);
      assert Zeros(count)[..count - 1] == Zeros(count - 1) by {
        assert forall i :: 0 <= i < count - 1 ==> Zeros(count)[i] == '0';
      }
    }
  }

  /** Two numerals of the same length with one value are the same. */
  lemma {:induction false} SameLengthSameValue(s: string, t: string)
    requires Decimal.Digits(s) && Decimal.Digits(t) && |s| == |t| && Decimal.Value(s) == Decimal.Value(t)
    ensures s == t
  {
    if s != "" {
      var n := |s| - 1;
      SameLengthSameValue(s[..n], t[..n]);
      assert s == s[..n] + [s[n]] && t == t[..n] + [t[n]];
    }
  }

  lemma {:induction false} ValueFits(s: string)
    requires Decimal.Digits(s)
    ensures Decimal.Value(s) < Decimal.Power(|s|)
  {
    if s != "" { ValueFits(s[..|s| - 1]); }
  }

  lemma PaddedValue(n: nat, width: nat)
    requires width > 0 && n < Decimal.Power(width)
    ensures |Padded(n, width)| == width && Decimal.Value(Padded(n, width)) == n
  {
    Decimal.PrintLength(n, width);
    Decimal.PrintIsCanonical(n);
    ZerosInFront(width - |Decimal.Print(n)|, Decimal.Print(n));
  }

  /** The validator accepts the name that the relay gives and no other; an ordinal of more than eight
      digits has none. */
  lemma NameExact(name: string, ordinal: nat, d: Direction)
    ensures NamesEntry(name, ordinal, d) <==> ordinal < Decimal.Power(8) && name == RawName(ordinal, d)
  {
    var width := 8;
    if ordinal < Decimal.Power(width) {
      PaddedValue(ordinal, width);
      var padded := Padded(ordinal, width);
      assert (padded + Suffix(d))[..8] == padded && (padded + Suffix(d))[8..] == Suffix(d);
      if NamesEntry(name, ordinal, d) {
        SameLengthSameValue(name[..8], padded);
        assert name == name[..8] + name[8..];
      }
    } else if NamesEntry(name, ordinal, d) {
      ValueFits(name[..8]);
    }
  }

  /** No two datagrams share a file. */
  lemma NamesAreDistinct(m: nat, d: Direction, n: nat, e: Direction)
    requires m < Decimal.Power(8) && n < Decimal.Power(8) && RawName(m, d) == RawName(n, e)
    ensures m == n && d == e
  {
    NameExact(RawName(m, d), m, d);
    NameExact(RawName(n, e), n, e);
    assert Suffix(ClientToServer)[1] != Suffix(ServerToClient)[1];
  }

  // ---- digests ----

  predicate HexChar(c: char) { '0' <= c <= '9' || 'a' <= c <= 'f' }

  function HexDigit(v: nat): (c: char)
    requires v < 16
    ensures HexChar(c) && HexValue(c) == v
  {
    if v < 10 then ('0' as int + v) as char else ('a' as int + (v - 10)) as char
  }

  function HexValue(c: char): (v: nat)
    requires HexChar(c)
    ensures v < 16
  {
    if c <= '9' then c as int - '0' as int else c as int - 'a' as int + 10
  }

  /** Two digits a byte, the high half first. */
  function Hex(bytes: seq<Byte>): string {
    if bytes == [] then "" else [HexDigit(bytes[0] / 16), HexDigit(bytes[0] % 16)] + Hex(bytes[1..])
  }

  predicate HexDigits(s: string) { forall i :: 0 <= i < |s| ==> HexChar(s[i]) }

  predicate Spelled(sha256: string) { |sha256| == 64 && HexDigits(sha256) }

  lemma {:induction false} HexIsSpelled(bytes: seq<Byte>)
    ensures |Hex(bytes)| == 2 * |bytes| && HexDigits(Hex(bytes))
  {
    if bytes != [] { HexIsSpelled(bytes[1..]); }
  }

  lemma {:induction false} SpelledIsHex(s: string) returns (bytes: seq<Byte>)
    requires HexDigits(s) && |s| % 2 == 0
    ensures Hex(bytes) == s && |bytes| == |s| / 2
  {
    if s == "" {
      bytes := [];
    } else {
      var rest := SpelledIsHex(s[2..]);
      var high, low := HexValue(s[0]), HexValue(s[1]);
      var b: Byte := 16 * high + low;
      assert b / 16 == high && b % 16 == low;
      assert HexDigit(high) == s[0] && HexDigit(low) == s[1];
      bytes := [b] + rest;
      assert s == [s[0], s[1]] + s[2..];
    }
  }

  /** The validator accepts exactly the spellings of 32 bytes. */
  lemma SpellingExact(sha256: string)
    ensures Spelled(sha256) <==> exists digest: seq<Byte> :: |digest| == 32 && Hex(digest) == sha256
  {
    if Spelled(sha256) {
      var digest := SpelledIsHex(sha256);
      assert |digest| == 32 && Hex(digest) == sha256;
    }
    forall digest: seq<Byte> | |digest| == 32 && Hex(digest) == sha256 ensures Spelled(sha256) { HexIsSpelled(digest); }
  }

  // ---- labels ----

  predicate LabelAccepted(e: Entry, l: Label) {
    NamesEntry(l.rawFilename, e.observedOrdinal, e.direction) && Spelled(l.sha256)
  }

  predicate Labelled(j: seq<Entry>, labels: seq<Label>) {
    |labels| == |j| && forall i :: 0 <= i < |j| ==> LabelAccepted(j[i], labels[i])
  }

  /** The label that the relay writes for an entry whose payload has that digest. */
  function LabelOf(e: Entry, digest: seq<Byte>): Label {
    Label(RawName(e.observedOrdinal, e.direction), Hex(digest))
  }

  lemma WrittenLabelIsAccepted(e: Entry, digest: seq<Byte>)
    requires |digest| == 32
    ensures LabelAccepted(e, LabelOf(e, digest)) <==> e.observedOrdinal < Decimal.Power(8)
  {
    NameExact(RawName(e.observedOrdinal, e.direction), e.observedOrdinal, e.direction);
    HexIsSpelled(digest);
  }

  // ---- the checks as they run ----

  method CheckName(name: string, ordinal: nat, d: Direction) returns (ok: bool)
    ensures ok <==> NamesEntry(name, ordinal, d)
  {
    if |name| != 16 || name[8..] != Suffix(d) { return false; }
    var head := name[..8];
    var value := 0;
    for i := 0 to 8
      invariant Decimal.Digits(head[..i]) && value == Decimal.Value(head[..i])
    {
      if !Decimal.Digit(head[i]) { return false; }
      assert head[..i + 1][..i] == head[..i];
      value := 10 * value + Decimal.DigitValue(head[i]);
    }
    assert head[..8] == head;
    return value == ordinal;
  }

  method CheckDigest(sha256: string) returns (ok: bool)
    ensures ok <==> Spelled(sha256)
  {
    if |sha256| != 64 { return false; }
    for i := 0 to 64
      invariant forall k :: 0 <= k < i ==> HexChar(sha256[k])
    {
      if !HexChar(sha256[i]) { return false; }
    }
    return true;
  }
}
