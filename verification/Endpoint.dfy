/** The recogniser of endpoints: it accepts exactly the one print of each allowed address and port. */
module Endpoint {
  import opened Common
  import Decimal

  const MAXIMUM_LENGTH: nat := 21
  const UNSIGNED: nat := 0x1_0000_0000

  /** The value of an unsigned decimal numeral that fills `s`, if it is one and fits 32 bits. */
  function FromChars(s: string): (v: Option<nat>)
    ensures v.Some? <==> s != "" && Decimal.Digits(s) && Decimal.Value(s) < UNSIGNED
  {
    if s == "" || !Decimal.Digits(s) || Decimal.Value(s) >= UNSIGNED then None else Some(Decimal.Value(s))
  }

  function Separator(i: nat): char { if i == 3 then ':' else '.' }

  /** Where field `i` of an endpoint ends that starts at the head of `s`. */
  function FieldEnd(s: string, i: nat): (end: nat)
    ensures end <= |s|
  {
    if i == 4 then |s| else IndexOf(s, Separator(i))
  }

  function Field(s: string, i: nat): Option<nat> {
    var end := FieldEnd(s, i);
    if (i < 4 && end == |s|) || end == 0 || (end > 1 && s[0] == '0') then None
    else
      var v := FromChars(s[..end]);
      if v.None? || (i < 4 && v.value > 255) then None else v
  }

  /** The fields from number `i` on. */
  function Fields(s: string, i: nat): Option<seq<nat>>
    requires i <= 4
    decreases 4 - i
  {
    var v := Field(s, i);
    if v.None? then None
    else if i == 4 then Some([v.value])
    else
      var rest := Fields(s[FieldEnd(s, i) + 1..], i + 1);
      if rest.None? then None else Some([v.value] + rest.value)
  }

  predicate Permitted(parts: seq<nat>) {
    |parts| == 5 && parts[0] != 0 && parts[0] != 127 && parts[0] < 224 && parts[3] != 255 && 0 < parts[4] <= 65535
  }

  predicate ValidEndpoint(s: string) {
    s != "" && |s| <= MAXIMUM_LENGTH && Fields(s, 0).Some? && Permitted(Fields(s, 0).value)
  }

  // ---- the canonical form ----

  /** Fields `i` to 4 as text. */
  function PrintFields(parts: seq<nat>, i: nat): string
    requires i <= 4 && |parts| == 5 - i
    decreases 4 - i
  {
    if i == 4 then Decimal.Print(parts[0])
    else Decimal.Print(parts[0]) + [Separator(i)] + PrintFields(parts[1..], i + 1)
  }

  /** Four octets, of which the first is not zero, loopback or multicast and the last not 255, and a port. */
  predicate Allowed(parts: seq<nat>) {
    && Permitted(parts)
    && forall i :: 0 <= i < 4 ==> parts[i] <= 255
  }

  predicate InRange(parts: seq<nat>, i: nat) {
    |parts| > 0 && forall j :: 0 <= j < |parts| ==> parts[j] <= (if i + j < 4 then 255 else UNSIGNED - 1)
  }

  lemma {:induction false} NumeralEnds(n: nat, c: char, t: string)
    requires !Decimal.Digit(c)
    ensures IndexOf(Decimal.Print(n) + [c] + t, c) == |Decimal.Print(n)|
  {
    DigitsEnd(Decimal.Print(n), c, t);
  }

  lemma {:induction false} DigitsEnd(s: string, c: char, t: string)
    requires Decimal.Digits(s) && !Decimal.Digit(c)
    ensures IndexOf(s + [c] + t, c) == |s|
  {
    if s != [] {
      assert (s + [c] + t)[1..] == s[1..] + [c] + t && (s + [c] + t)[0] == s[0];
      DigitsEnd(s[1..], c, t);
    } else {
      assert (s + [c] + t)[0] == c;
    }
  }

  /** A field is a canonical numeral in front of its separator. */
  lemma FieldReads(n: nat, i: nat, t: string)
    requires i <= 4 && n <= (if i < 4 then 255 else UNSIGNED - 1) && (i == 4 ==> t == "")
    ensures var s := if i == 4 then Decimal.Print(n) else Decimal.Print(n) + [Separator(i)] + t;
            FieldEnd(s, i) == |Decimal.Print(n)| && Field(s, i) == Some(n)
  {
    var p := Decimal.Print(n);
    var s := if i == 4 then p else p + [Separator(i)] + t;
    Decimal.PrintIsCanonical(n);
    if i < 4 { NumeralEnds(n, Separator(i), t); }
    assert s[..|p|] == p;
    assert s[0] == p[0];
  }

  lemma FieldWasPrinted(s: string, i: nat)
    requires i <= 4 && Field(s, i).Some?
    ensures var n, end := Field(s, i).value, FieldEnd(s, i);
            && n <= (if i < 4 then 255 else UNSIGNED - 1)
            && (i < 4 ==> end < |s|)
            && s == if i == 4 then Decimal.Print(n) else Decimal.Print(n) + [Separator(i)] + s[end + 1..]
  {
    var end := FieldEnd(s, i);
    assert s[..end][0] == s[0];
    Decimal.CanonicalIsPrinted(s[..end]);
    if i == 4 {
      assert s[..end] == s;
    } else {
      assert s == s[..end] + [s[end]] + s[end + 1..];
    }
  }

  lemma {:induction false} FieldsRead(parts: seq<nat>, i: nat)
    requires i <= 4 && |parts| == 5 - i && InRange(parts, i)
    ensures Fields(PrintFields(parts, i), i) == Some(parts)
    decreases 4 - i
  {
    var s := PrintFields(parts, i);
    hide Field, FieldEnd, Decimal.Print;
    if i == 4 {
      FieldReads(parts[0], i, "");
      assert parts == [parts[0]];
    } else {
      var rest := PrintFields(parts[1..], i + 1);
      FieldReads(parts[0], i, rest);
      FieldsRead(parts[1..], i + 1);
      assert s[|Decimal.Print(parts[0])| + 1..] == rest;
      assert parts == [parts[0]] + parts[1..];
    }
  }

  lemma {:induction false} FieldsWerePrinted(s: string, i: nat)
    requires i <= 4 && Fields(s, i).Some?
    ensures var parts := Fields(s, i).value;
            |parts| == 5 - i && InRange(parts, i) && s == PrintFields(parts, i)
    decreases 4 - i
  {
    FieldWasPrinted(s, i);
    hide Field, FieldEnd, Decimal.Print;
    if i < 4 {
      var t := s[FieldEnd(s, i) + 1..];
      FieldsWerePrinted(t, i + 1);
      InRangeOneMore(Field(s, i).value, Fields(t, i + 1).value, i);
      assert Fields(s, i).value[1..] == Fields(t, i + 1).value;
    }
  }

  lemma InRangeOneMore(n: nat, rest: seq<nat>, i: nat)
    requires i < 4 && n <= 255 && InRange(rest, i + 1)
    ensures InRange([n] + rest, i)
  {
    var parts := [n] + rest;
    forall j | 0 <= j < |parts| ensures parts[j] <= (if i + j < 4 then 255 else UNSIGNED - 1) {
      if j > 0 { assert parts[j] == rest[j - 1]; }
    }
  }

  lemma AllowedFits(parts: seq<nat>)
    requires Allowed(parts)
    ensures 0 < |PrintFields(parts, 0)| <= MAXIMUM_LENGTH
  {
    assert Decimal.Power(3) == 1000 && Decimal.Power(5) == 100000;
    Decimal.PrintLength(parts[0], 3);
    Decimal.PrintLength(parts[1], 3);
    Decimal.PrintLength(parts[2], 3);
    Decimal.PrintLength(parts[3], 3);
    Decimal.PrintLength(parts[4], 5);
    hide Decimal.Print;
    assert |PrintFields(parts[1..][1..], 2)| <= 13 by {
      assert parts[1..][1..][0] == parts[2] && parts[1..][1..][1..][0] == parts[3];
      assert parts[1..][1..][1..][1..][0] == parts[4];
      assert |PrintFields(parts[1..][1..][1..], 3)| <= 9;
    }
  }

  /** The recogniser accepts a text if and only if it is the print of an allowed endpoint. */
  lemma ValidIsCanonical(s: string)
    ensures ValidEndpoint(s) <==> exists parts: seq<nat> :: Allowed(parts) && s == PrintFields(parts, 0)
  {
    if ValidEndpoint(s) {
      FieldsWerePrinted(s, 0);
      assert Allowed(Fields(s, 0).value);
    }
    forall parts: seq<nat> | Allowed(parts) && s == PrintFields(parts, 0)
      ensures ValidEndpoint(s)
    {
      FieldsRead(parts, 0);
      AllowedFits(parts);
    }
  }

  /** Four numbers and a port, as they are written. */
  ghost predicate Spelled(s: string, a: nat, b: nat, c: nat, d: nat, port: nat) {
    s == Decimal.Print(a) + "." + Decimal.Print(b) + "." + Decimal.Print(c) + "." + Decimal.Print(d) + ":" + Decimal.Print(port)
  }

  lemma PrintSpelled(parts: seq<nat>)
    requires |parts| == 5
    ensures Spelled(PrintFields(parts, 0), parts[0], parts[1], parts[2], parts[3], parts[4])
  {
    hide Decimal.Print;
    var p1, p2, p3 := parts[1..], parts[1..][1..], parts[1..][1..][1..];
    assert p1[0] == parts[1] && p2[0] == parts[2] && p3[0] == parts[3] && p3[1..][0] == parts[4];
    assert PrintFields(p3[1..], 4) == Decimal.Print(parts[4]);
    assert PrintFields(p3, 3) == Decimal.Print(parts[3]) + ":" + Decimal.Print(parts[4]);
    assert PrintFields(p2, 2) == Decimal.Print(parts[2]) + "." + PrintFields(p3, 3);
    assert PrintFields(p1, 1) == Decimal.Print(parts[1]) + "." + PrintFields(p2, 2);
    assert PrintFields(parts, 0) == Decimal.Print(parts[0]) + "." + PrintFields(p1, 1);
  }

  /** What is accepted, spelled out. */
  lemma ValidIsSpelled(s: string)
    ensures ValidEndpoint(s) <==>
            exists a: nat, b: nat, c: nat, d: nat, port: nat ::
              && Spelled(s, a, b, c, d, port)
              && 1 <= a <= 223 && a != 127 && b <= 255 && c <= 255 && d <= 254 && 1 <= port <= 65535
  {
    ValidIsCanonical(s);
    hide PrintFields, ValidEndpoint, Spelled;
    if ValidEndpoint(s) {
      var parts: seq<nat> :| Allowed(parts) && s == PrintFields(parts, 0);
      PrintSpelled(parts);
    }
    forall a: nat, b: nat, c: nat, d: nat, port: nat
      | && Spelled(s, a, b, c, d, port)
        && 1 <= a <= 223 && a != 127 && b <= 255 && c <= 255 && d <= 254 && 1 <= port <= 65535
      ensures ValidEndpoint(s)
    {
      var parts: seq<nat> := [a, b, c, d, port];
      PrintSpelled(parts);
      SpelledOnce(s, PrintFields(parts, 0), a, b, c, d, port);
      assert Allowed(parts);
    }
  }

  lemma SpelledOnce(s: string, t: string, a: nat, b: nat, c: nat, d: nat, port: nat)
    requires Spelled(s, a, b, c, d, port) && Spelled(t, a, b, c, d, port)
    ensures s == t
  {
  }

  /** Each allowed endpoint has one print only. */
  lemma PrintIsUnique(a: seq<nat>, b: seq<nat>)
    requires Allowed(a) && Allowed(b) && PrintFields(a, 0) == PrintFields(b, 0)
    ensures a == b
  {
    assert InRange(a, 0) && InRange(b, 0);
    hide Fields, PrintFields;
    FieldsRead(a, 0);
    FieldsRead(b, 0);
  }

  lemma {:induction false} PrintIsBare(parts: seq<nat>, i: nat)
    requires i <= 4 && |parts| == 5 - i
    ensures var s := PrintFields(parts, i);
            s != "" && Decimal.Digit(s[0]) && forall k :: 0 <= k < |s| ==> Decimal.Digit(s[k]) || s[k] == '.' || s[k] == ':'
    decreases 4 - i
  {
    if i < 4 { PrintIsBare(parts[1..], i + 1); }
  }

  /** A valid endpoint starts with a digit and holds only digits, points and a colon. */
  lemma ValidIsBare(s: string)
    requires ValidEndpoint(s)
    ensures s != "" && Decimal.Digit(s[0]) && forall k :: 0 <= k < |s| ==> Decimal.Digit(s[k]) || s[k] == '.' || s[k] == ':'
  {
    FieldsWerePrinted(s, 0);
    PrintIsBare(Fields(s, 0).value, 0);
  }

  // ---- the recogniser ----

  method ReadField(s: string, i: nat, at: nat) returns (v: Option<nat>, end: nat)
    requires i <= 4 && at <= |s|
    ensures at <= end <= |s| && end == at + FieldEnd(s[at..], i) && v == Field(s[at..], i)
    ensures v.Some? && i < 4 ==> end < |s|
  {
    end := |s|;
    if i < 4 { end := Find(s, Separator(i), at); }
    EndOf(s, i, at, end);
    FieldOf(s, i, at, end);
    hide Field, FieldEnd;
    if (i < 4 && end == |s|) || end == at || (end - at > 1 && s[at] == '0') { return None, end; }
    v := FromChars(s[at..end]);
    if v.None? || (i < 4 && v.value > 255) { v := None; }
  }

  method RecogniseEndpoint(s: string) returns (valid: bool)
    ensures valid <==> ValidEndpoint(s)
  {
    hide Fields, Field, FieldEnd, After;
    if s == "" || |s| > MAXIMUM_LENGTH { return false; }
    var parts, at := new nat[5], 0;
    assert s[0..] == s && parts[..0] == [];
    AfterNothing(Fields(s, 0));
    for i := 0 to 5
      invariant i < 5 ==> at <= |s| && Fields(s, 0) == After(parts[..i], Fields(s[at..], i))
      invariant i == 5 ==> Fields(s, 0) == Some(parts[..5])
    {
      var v, end := ReadField(s, i, at);
      if v.None? {
        FieldsFail(s, i, at, parts[..i]);
        return false;
      }
      FieldsStep(s, i, at, end, parts[..i]);
      ghost var done := parts[..i];
      parts[i] := v.value;
      assert parts[..i + 1] == done + [v.value];
      at := end + 1;
    }
    valid := parts[0] != 0 && parts[0] != 127 && parts[0] < 224 && parts[3] != 255 && 0 < parts[4] <= 65535;
  }

  lemma EndOf(s: string, i: nat, at: nat, end: nat)
    requires i <= 4 && at <= |s|
    requires end == if i < 4 then at + IndexOf(s[at..], Separator(i)) else |s|
    ensures at <= end <= |s| && end == at + FieldEnd(s[at..], i)
  {
  }

  lemma FieldsFail(s: string, i: nat, at: nat, done: seq<nat>)
    requires i <= 4 && at <= |s| && Field(s[at..], i).None?
    ensures After(done, Fields(s[at..], i)) == None
  {
  }

  lemma AfterNothing(rest: Option<seq<nat>>)
    ensures After([], rest) == rest
  {
    if rest.Some? { assert [] + rest.value == rest.value; }
  }

  function After(done: seq<nat>, rest: Option<seq<nat>>): Option<seq<nat>> {
    if rest.None? then None else Some(done + rest.value)
  }

  /** One turn of the loop. */
  lemma FieldsStep(s: string, i: nat, at: nat, end: nat, done: seq<nat>)
    requires i <= 4 && at <= end <= |s| && end == at + FieldEnd(s[at..], i)
    requires Field(s[at..], i).Some? && i < 4 ==> end < |s|
    ensures var f := Field(s[at..], i);
            After(done, Fields(s[at..], i))
            == if f.None? then None
               else if i == 4 then Some(done + [f.value])
               else After(done + [f.value], Fields(s[end + 1..], i + 1))
  {
    hide Field, FieldEnd;
    if i < 4 && Field(s[at..], i).Some? {
      assert s[at..][FieldEnd(s[at..], i) + 1..] == s[end + 1..];
      AfterOneMore(done, Field(s[at..], i).value, Fields(s[end + 1..], i + 1));
    }
  }

  lemma AfterOneMore(done: seq<nat>, v: nat, rest: Option<seq<nat>>)
    ensures After(done, if rest.None? then None else Some([v] + rest.value)) == After(done + [v], rest)
  {
    if rest.Some? { assert done + ([v] + rest.value) == done + [v] + rest.value; }
  }

  lemma FieldOf(s: string, i: nat, at: nat, end: nat)
    requires i <= 4 && at <= end <= |s| && end == at + FieldEnd(s[at..], i)
    ensures var v := FromChars(s[at..end]);
            Field(s[at..], i)
            == if (i < 4 && end == |s|) || end == at || (end - at > 1 && s[at] == '0') then None
               else if v.None? || (i < 4 && v.value > 255) then None else v
  {
    assert s[at..][..end - at] == s[at..end];
    hide FromChars;
  }
}
