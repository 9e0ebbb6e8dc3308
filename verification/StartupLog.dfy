/** The bounded startup journal: one line a record, a marker when it is full, and nothing after that. */
module StartupLog {
  const MAXIMUM_JOURNAL: nat := 65536
  const MAXIMUM_LINE: nat := 4096

  function Marker(): string { "startup_journal_limit_reached=true" }
  function LineEnd(): string { "\r\n" }

  predicate Control(c: char) { c < ' ' || c as int == 127 }

  /** The first `maximum` characters, with blanks for control characters. */
  function SingleLine(text: string, maximum: nat): (line: string)
    ensures |line| == (if |text| < maximum then |text| else maximum)
    ensures forall i :: 0 <= i < |line| ==> line[i] == if Control(text[i]) then ' ' else text[i]
  {
    var n := if |text| < maximum then |text| else maximum;
    seq(n, i requires 0 <= i < n => if Control(text[i]) then ' ' else text[i])
  }

  predicate Clean(line: string) { forall i :: 0 <= i < |line| ==> !Control(line[i]) }

  /** A text becomes a clean line of bounded length: visible characters stay where they are, and
      nothing happens to what is already such a line. */
  lemma SingleLineCleans(text: string, maximum: nat)
    ensures var line := SingleLine(text, maximum);
            && Clean(line) && |line| <= maximum && |line| <= |text|
            && (forall i :: 0 <= i < |line| && line[i] != ' ' ==> line[i] == text[i])
            && (forall i :: 0 <= i < |text| && i < maximum && !Control(text[i]) ==> line[i] == text[i])
            && (line == text <==> Clean(text) && |text| <= maximum)
            && SingleLine(line, maximum) == line
            && (forall shorter: nat :: shorter <= maximum ==> SingleLine(line, shorter) == SingleLine(text, shorter))
  {
    var line := SingleLine(text, maximum);
    if Clean(text) && |text| <= maximum { assert line == text; }
  }

  /** A time stamp as it is printed: digits first, no control character, at most 63 characters. */
  predicate Stamp(s: string) { 0 < |s| <= 63 && '0' <= s[0] <= '9' && Clean(s) }

  /** What the file system did with a write. */
  datatype Outcome = Refused | Accepted(count: nat)

  datatype Journal = Journal(text: string, written: nat, limited: bool)

  const EMPTY: Journal := Journal("", 0, false)

  function Taken(bytes: string, o: Outcome): string {
    if o.Refused? then "" else if o.count < |bytes| then bytes[..o.count] else bytes
  }

  function Appended(j: Journal, bytes: string, limited: bool, o: Outcome): Journal {
    var taken := Taken(bytes, o);
    Journal(j.text + taken, j.written + |taken|, limited)
  }

  /** One record; `stamp` is the printed time and `o` what happens to the write, if there is one. */
  function WriteLine(j: Journal, stamp: string, line: string, o: Outcome): Journal {
    if j.limited then j
    else
      var bytes := stamp + SingleLine(line, MAXIMUM_LINE) + LineEnd();
      if j.written + |bytes| <= MAXIMUM_JOURNAL then Appended(j, bytes, false, o)
      else
        var marker := Marker() + LineEnd();
        if j.written + |marker| > MAXIMUM_JOURNAL then j.(limited := true)
        else Appended(j, marker, true, o)
  }

  datatype Record = Record(stamp: string, line: string, outcome: Outcome)

  function Run(j: Journal, records: seq<Record>): Journal
    decreases |records|
  {
    if records == [] then j
    else Run(WriteLine(j, records[0].stamp, records[0].line, records[0].outcome), records[1..])
  }

  // ---- whatever the file system does ----

  predicate Bounded(j: Journal) { j.written == |j.text| <= MAXIMUM_JOURNAL }

  /** The journal never outgrows its limit, and once the limit was reported it never changes. */
  lemma {:induction false} RunsAreBounded(j: Journal, records: seq<Record>)
    requires Bounded(j)
    ensures Bounded(Run(j, records)) && j.text <= Run(j, records).text
    ensures j.limited ==> Run(j, records) == j
    decreases |records|
  {
    hide SingleLine, Marker;
    if records != [] {
      var next := WriteLine(j, records[0].stamp, records[0].line, records[0].outcome);
      TakenIsShort(records[0].stamp + SingleLine(records[0].line, MAXIMUM_LINE) + LineEnd(), records[0].outcome);
      TakenIsShort(Marker() + LineEnd(), records[0].outcome);
      hide Taken;
      RunsAreBounded(next, records[1..]);
    }
  }

  lemma TakenIsShort(bytes: string, o: Outcome)
    ensures |Taken(bytes, o)| <= |bytes|
  {
  }

  // ---- when writes are not cut short ----

  function Text(lines: seq<string>): string {
    if lines == [] then "" else lines[0] + LineEnd() + Text(lines[1..])
  }

  /** The text is a list of clean lines; only the last can be the marker, and only of a full journal. */
  predicate Lined(j: Journal, lines: seq<string>) {
    && j.text == Text(lines) && Bounded(j)
    && (forall i :: 0 <= i < |lines| ==> Clean(lines[i]))
    && (forall i :: 0 <= i < |lines| && lines[i] == Marker() ==> i == |lines| - 1 && j.limited)
  }

  /** The write fails or takes all. */
  predicate Whole(r: Record) {
    Stamp(r.stamp) && (r.outcome.Refused? || r.outcome.count >= 2 * MAXIMUM_LINE)
  }

  lemma {:induction false} TextOneMore(lines: seq<string>, line: string)
    ensures Text(lines + [line]) == Text(lines) + (line + LineEnd())
  {
    if lines == [] {
      assert lines + [line] == [line] && [line][1..] == [];
    } else {
      assert (lines + [line])[0] == lines[0] && (lines + [line])[1..] == lines[1..] + [line];
      TextOneMore(lines[1..], line);
    }
  }

  lemma StampedIsClean(stamp: string, line: string)
    requires Stamp(stamp)
    ensures var s := stamp + SingleLine(line, MAXIMUM_LINE);
            Clean(s) && s != Marker() && |s| + 2 < 2 * MAXIMUM_LINE
  {
    var s := stamp + SingleLine(line, MAXIMUM_LINE);
    assert s[0] == stamp[0] && Marker()[0] == 's';
  }

  lemma MarkerIsClean()
    ensures Clean(Marker())
  {
  }

  lemma WriteKeepsLines(j: Journal, lines: seq<string>, r: Record) returns (more: seq<string>)
    requires Lined(j, lines) && Whole(r)
    ensures Lined(WriteLine(j, r.stamp, r.line, r.outcome), more)
  {
    StampedIsClean(r.stamp, r.line);
    MarkerIsClean();
    hide SingleLine, Marker, Clean, Text, LineEnd;
    assert |LineEnd()| == 2 by { TwoCharacters(); }
    var s := r.stamp + SingleLine(r.line, MAXIMUM_LINE);
    more := lines;
    if !j.limited {
      if j.written + |s + LineEnd()| <= MAXIMUM_JOURNAL {
        if r.outcome.Accepted? {
          TextOneMore(lines, s);
          more := lines + [s];
        }
      } else if j.written + |Marker() + LineEnd()| <= MAXIMUM_JOURNAL {
        if r.outcome.Accepted? {
          assert |Marker()| < 100 by { MarkerIsShort(); }
          TextOneMore(lines, Marker());
          more := lines + [Marker()];
        }
      }
      NothingTaken(j.text);
    }
  }

  lemma NothingTaken(text: string)
    ensures text + "" == text
  {
  }

  lemma TwoCharacters()
    ensures |LineEnd()| == 2
  {
  }

  lemma MarkerIsShort()
    ensures |Marker()| < 100
  {
  }

  /** Over any records: clean lines that end in CR LF, and the marker at most once, as the last. */
  lemma {:induction false} RunsAreLined(j: Journal, lines: seq<string>,
                records: seq<Record>) returns (more: seq<string>)
    requires Lined(j, lines) && forall r <- records :: Whole(r)
    ensures Lined(Run(j, records), more)
    decreases |records|
  {
    more := lines;
    hide Lined, Whole, WriteLine;
    if records != [] {
      assert records[0] in records && forall r <- records[1..] :: r in records;
      var next := WriteKeepsLines(j, lines, records[0]);
      more := RunsAreLined(WriteLine(j, records[0].stamp, records[0].line, records[0].outcome), next, records[1..]);
    }
  }

  lemma EmptyIsLined()
    ensures Lined(EMPTY, [])
  {
  }

  /** A journal opened on an empty file is made of lines as long as no write is cut short. */
  lemma JournalsAreLined(records: seq<Record>) returns (lines: seq<string>)
    requires forall r <- records :: Whole(r)
    ensures Lined(Run(EMPTY, records), lines)
  {
    EmptyIsLined();
    lines := RunsAreLined(EMPTY, [], records);
  }

  // ---- what a journal holds ----

  lemma {:induction false} RunSplits(j: Journal, before: seq<Record>, after: seq<Record>)
    ensures Run(j, before + after) == Run(Run(j, before), after)
    decreases |before|
  {
    hide WriteLine;
    if before == [] {
      assert before + after == after;
    } else {
      var r := before[0];
      assert (before + after)[0] == r && (before + after)[1..] == before[1..] + after;
      RunSplits(WriteLine(j, r.stamp, r.line, r.outcome), before[1..], after);
    }
  }

  /** The line of a record, as the journal is to hold it. */
  function Entry(r: Record): string { r.stamp + SingleLine(r.line, 4096) }

  /** The lines of the records that reached the file. */
  function TakenLines(records: seq<Record>): seq<string> {
    if records == [] then []
    else
      var n := |records| - 1;
      TakenLines(records[..n]) + if records[n].outcome.Accepted? then [Entry(records[n])] else []
  }

  /** What lines take up with their ends. */
  function Size(lines: seq<string>): nat {
    if lines == [] then 0 else Size(lines[..|lines| - 1]) + |lines[|lines| - 1]| + 2
  }

  /** The write fails, or takes whatever it is given. */
  predicate AllOrNothing(r: Record) {
    r.outcome.Refused? || r.outcome.count >= |r.stamp| + 2 * MAXIMUM_LINE
  }

  /** Record `i` fits behind those of the earlier records that were taken. */
  predicate Fits(records: seq<Record>, i: nat)
    requires i < |records|
  {
    Size(TakenLines(records[..i])) + |Entry(records[i])| + 2 <= 65536
  }

  /** The text of a journal of which the first `k` records fit and the next one, if any, does not. */
  function Held(records: seq<Record>, k: nat): string
    requires k <= |records|
  {
    Text(TakenLines(records[..k]))
    + if k < |records| && records[k].outcome.Accepted? && Size(TakenLines(records[..k])) + 36 <= 65536
      then "startup_journal_limit_reached=true\r\n" else ""
  }

  ghost predicate HoldsFirst(j: Journal, records: seq<Record>, k: nat) {
    && k <= |records|
    && (forall i :: 0 <= i < k ==> Fits(records, i))
    && (k < |records| ==> !Fits(records, k))
    && j.text == Held(records, k) && j.written == |j.text|
    && (j.limited <==> k < |records|)
  }

  lemma {:induction false} TextSize(lines: seq<string>)
    ensures |Text(lines)| == Size(lines)
  {
    if lines != [] {
      var n := |lines| - 1;
      assert lines == lines[..n] + [lines[n]];
      TextOneMore(lines[..n], lines[n]);
      TextSize(lines[..n]);
    }
  }

  lemma RunOneMore(j: Journal, records: seq<Record>, r: Record)
    ensures Run(j, records + [r]) == WriteLine(Run(j, records), r.stamp, r.line, r.outcome)
  {
    hide WriteLine;
    RunSplits(j, records, [r]);
    assert [r][1..] == [];
    assert Run(Run(j, records), [r]) == Run(WriteLine(Run(j, records), r.stamp, r.line, r.outcome), []);
  }

  /** When writes fail or take all, the journal holds the records in order as long as they fit, then the
      marker if that still does, and nothing after it. A record whose write fails is missing and takes
      no room. */
  lemma {:induction false} JournalsHoldRecords(records: seq<Record>) returns (k: nat)
    requires forall r <- records :: AllOrNothing(r)
    ensures HoldsFirst(Run(EMPTY, records), records, k)
    decreases |records|
  {
    hide HoldsFirst, Run, AllOrNothing, Fits, WriteLine;
    if records == [] {
      k := 0;
      NothingHeld(records);
    } else {
      var n := |records| - 1;
      var r, before := records[n], records[..n];
      assert r in records && records == before + [r] && forall x <- before :: x in records;
      k := JournalsHoldRecords(before);
      RunOneMore(EMPTY, before, r);
      if k < n {
        StaysFull(Run(EMPTY, before), before, r, k);
      } else {
        assert k == n by { HoldsSome(Run(EMPTY, before), before, k); }
        TakesOneMore(Run(EMPTY, before), before, r);
        if Fits(records, n) { k := n + 1; }
      }
    }
  }

  lemma NothingHeld(records: seq<Record>)
    requires records == []
    ensures HoldsFirst(Run(EMPTY, records), records, 0)
  {
  }

  lemma HoldsSome(j: Journal, records: seq<Record>, k: nat)
    requires HoldsFirst(j, records, k)
    ensures k <= |records|
  {
  }

  lemma SameBefore(before: seq<Record>, r: Record, k: nat)
    requires k <= |before|
    ensures (before + [r])[..k] == before[..k] && (before + [r])[|before|] == r
    ensures k < |before| ==> (before + [r])[k] == before[k]
  {
  }

  lemma FitsBefore(before: seq<Record>, r: Record, i: nat)
    requires i < |before|
    ensures Fits(before + [r], i) <==> Fits(before, i)
    ensures Held(before + [r], i) == Held(before, i)
  {
    SameBefore(before, r, i);
  }

  lemma FitsLast(before: seq<Record>, r: Record)
    ensures var all, n, size := before + [r], |before|, Size(TakenLines(before));
            && (Fits(all, n) <==> size + |Entry(r)| + 2 <= 65536)
            && Held(all, n) == Text(TakenLines(before)) + (if r.outcome.Accepted? && size + 36 <= 65536
                                                            then "startup_journal_limit_reached=true\r\n" else "")
            && Held(all, n + 1) == Text(TakenLines(before)) + (if r.outcome.Accepted? then Entry(r) + LineEnd() else "")
            && Held(before, n) == Text(TakenLines(before))
  {
    hide TakenLines, Text, Size, Entry, LineEnd;
    var all, n, t := before + [r], |before|, TakenLines(before);
    SameBefore(before, r, n);
    TakenOneMore(before, r);
    assert all[..n + 1] == all && before[..n] == before;
    if r.outcome.Accepted? {
      TextOneMore(t, Entry(r));
    } else {
      assert t + [] == t;
    }
    NothingTaken(Text(t));
    NothingTaken(Text(TakenLines(all)));
  }

  lemma StaysFull(j: Journal, before: seq<Record>, r: Record, k: nat)
    requires HoldsFirst(j, before, k) && k < |before|
    ensures HoldsFirst(WriteLine(j, r.stamp, r.line, r.outcome), before + [r], k)
  {
    hide Fits, Held;
    forall i | 0 <= i <= k ensures Fits(before + [r], i) <==> Fits(before, i) { FitsBefore(before, r, i); }
    FitsBefore(before, r, k);
  }

  lemma TakesOneMore(j: Journal, before: seq<Record>, r: Record)
    requires HoldsFirst(j, before, |before|) && AllOrNothing(r)
    ensures var n := |before|;
            HoldsFirst(WriteLine(j, r.stamp, r.line, r.outcome), before + [r], if Fits(before + [r], n) then n + 1 else n)
  {
    var n := |before|;
    FitsLast(before, r);
    TextSize(TakenLines(before));
    WriteOneMore(j, r);
    hide TakenLines, Text, Size, Entry, WriteLine, Fits, Held, LineEnd;
    forall i | 0 <= i < n ensures Fits(before + [r], i) { FitsBefore(before, r, i); }
  }

  lemma TakenOneMore(before: seq<Record>, r: Record)
    ensures TakenLines(before + [r]) == TakenLines(before) + if r.outcome.Accepted? then [Entry(r)] else []
  {
    assert (before + [r])[..|before|] == before;
  }

  /** What a record that is taken as a whole or not at all makes of a journal that is not full. */
  lemma WriteOneMore(j: Journal, r: Record)
    requires !j.limited && AllOrNothing(r)
    ensures var n, fits := WriteLine(j, r.stamp, r.line, r.outcome), j.written + |Entry(r)| + 2 <= 65536;
            && (n.limited <==> !fits)
            && n.text == j.text + (if r.outcome.Refused? then "" else if fits then Entry(r) + LineEnd()
                                   else if j.written + 36 <= 65536 then "startup_journal_limit_reached=true\r\n" else "")
            && n.written == j.written + |n.text| - |j.text|
  {
    assert Marker() + LineEnd() == "startup_journal_limit_reached=true\r\n";
    var bytes := r.stamp + SingleLine(r.line, MAXIMUM_LINE) + LineEnd();
    assert bytes == Entry(r) + LineEnd() && |bytes| == |Entry(r)| + 2;
    hide SingleLine, Marker;
  }

  lemma {:induction false} AllTaken(records: seq<Record>)
    requires forall i :: 0 <= i < |records| ==> records[i].outcome.Accepted?
    ensures |TakenLines(records)| == |records|
    ensures forall i :: 0 <= i < |records| ==> TakenLines(records)[i] == Entry(records[i])
  {
    if records != [] { AllTaken(records[..|records| - 1]); }
  }

  /** The lines of records. */
  function Lines(records: seq<Record>): seq<string> {
    seq(|records|, i requires 0 <= i < |records| => records[i].stamp + SingleLine(records[i].line, 4096))
  }

  /** When no write fails either, these are all of the first records, as many as fit. */
  lemma JournalsAreComplete(records: seq<Record>) returns (k: nat)
    requires forall r <- records :: AllOrNothing(r) && r.outcome.Accepted?
    ensures k <= |records|
    ensures var lines := Lines(records[..k]);
            && Size(lines) <= 65536
            && (k < |records| ==> Size(Lines(records[..k + 1])) > 65536)
            && Run(EMPTY, records).text
               == Text(lines) + if k < |records| && Size(lines) + 36 <= 65536
                                then "startup_journal_limit_reached=true\r\n" else ""
  {
    k := JournalsHoldRecords(records);
    TakenAreLines(records, k);
    if k > 0 {
      assert Fits(records, k - 1);
      TakenAreLines(records, k - 1);
      LinesOneMore(records, k - 1);
    } else {
      NoSize();
      assert Lines(records[..k]) == [];
    }
    if k < |records| { LinesOneMore(records, k); }
    hide Run, Entry, Text, Size, Lines, TakenLines;
  }

  lemma TakenAreLines(records: seq<Record>, k: nat)
    requires k <= |records| && forall r <- records :: r.outcome.Accepted?
    ensures TakenLines(records[..k]) == Lines(records[..k])
  {
    AllTaken(records[..k]);
  }

  lemma LinesOneMore(records: seq<Record>, k: nat)
    requires k < |records|
    ensures Size(Lines(records[..k + 1])) == Size(Lines(records[..k])) + |Entry(records[k])| + 2
  {
    assert Lines(records[..k + 1]) == Lines(records[..k]) + [Entry(records[k])];
    SizeOneMore(Lines(records[..k]), Entry(records[k]));
  }

  lemma NoSize()
    ensures Size([]) == 0
  {
  }

  lemma SizeOneMore(lines: seq<string>, line: string)
    ensures Size(lines + [line]) == Size(lines) + |line| + 2
  {
    assert (lines + [line])[..|lines|] == lines;
  }

  // ---- when a write is cut short ----

  /** The lines written up to the first cut stay at the head of the text, whatever comes after. */
  lemma LinesBeforeCutStay(before: seq<Record>, after: seq<Record>) returns (lines: seq<string>)
    requires forall r <- before :: Whole(r)
    ensures Lined(Run(EMPTY, before), lines) && Text(lines) <= Run(EMPTY, before + after).text
  {
    hide Lined, Run, Whole;
    lines := JournalsAreLined(before);
    RunSplits(EMPTY, before, after);
    LinedIsBounded(Run(EMPTY, before), lines);
    RunsAreBounded(Run(EMPTY, before), after);
  }

  lemma LinedIsBounded(j: Journal, lines: seq<string>)
    requires Lined(j, lines)
    ensures Bounded(j) && j.text == Text(lines)
  {
  }

  /** A control character of the text is a carriage return, or a line feed right after one. */
  ghost predicate Tidy(text: string) {
    forall i :: 0 <= i < |text| ==> TidyAt(text, i)
  }

  predicate TidyAt(text: string, i: nat)
    requires i < |text|
  {
    Control(text[i]) ==> text[i] == '\r' || (text[i] == '\n' && i > 0 && text[i - 1] == '\r')
  }

  /** A cut leaves the head of a clean line with its end. */
  lemma CutIsTidy(text: string, line: string, count: nat)
    requires Tidy(text) && Clean(line) && count <= |line + LineEnd()|
    ensures Tidy(text + (line + LineEnd())[..count])
  {
    LineIsTidy(line);
    var piece := (line + LineEnd())[..count];
    hide LineEnd;
    assert Tidy(piece) by {
      forall k | 0 <= k < |piece| ensures TidyAt(piece, k) { assert TidyAt(line + LineEnd(), k); }
    }
    TidyAdds(text, piece);
  }

  lemma LineIsTidy(line: string)
    requires Clean(line)
    ensures Tidy(line + LineEnd())
  {
  }

  lemma TidyAdds(a: string, b: string)
    requires Tidy(a) && Tidy(b)
    ensures Tidy(a + b)
  {
    forall i | 0 <= i < |a + b| ensures TidyAt(a + b, i) {
      if i < |a| { assert TidyAt(a, i); } else { assert TidyAt(b, i - |a|); }
    }
  }

  lemma AppendedIsTidy(j: Journal, line: string, limited: bool, o: Outcome)
    requires Tidy(j.text) && Clean(line)
    ensures Tidy(Appended(j, line + LineEnd(), limited, o).text)
  {
    var bytes := line + LineEnd();
    var count := if o.Refused? then 0 else if o.count < |bytes| then o.count else |bytes|;
    assert Taken(bytes, o) == bytes[..count];
    CutIsTidy(j.text, line, count);
  }

  /** However writes fail or are cut short, no other control character gets into the journal. */
  lemma {:induction false} RunsAreTidy(j: Journal, records: seq<Record>)
    requires Tidy(j.text) && forall r <- records :: Stamp(r.stamp)
    ensures Tidy(Run(j, records).text)
    decreases |records|
  {
    if records != [] {
      var r := records[0];
      assert r in records && forall r <- records[1..] :: r in records;
      StampedIsClean(r.stamp, r.line);
      MarkerIsClean();
      hide Tidy, Stamp, SingleLine, Clean, Marker, LineEnd, Taken;
      AppendedIsTidy(j, r.stamp + SingleLine(r.line, MAXIMUM_LINE), false, r.outcome);
      AppendedIsTidy(j, Marker(), true, r.outcome);
      hide Appended;
      RunsAreTidy(WriteLine(j, r.stamp, r.line, r.outcome), records[1..]);
    }
  }

  /** The same from an empty file. */
  lemma JournalsAreTidy(records: seq<Record>)
    requires forall r <- records :: Stamp(r.stamp)
    ensures Tidy(Run(EMPTY, records).text)
    ensures Bounded(Run(EMPTY, records))
  {
    RunsAreTidy(EMPTY, records);
    RunsAreBounded(EMPTY, records);
  }

  /** The lines of a text are determined by it. */
  lemma {:induction false} LinesAreDetermined(a: seq<string>, b: seq<string>)
    requires Text(a) == Text(b)
    requires (forall i :: 0 <= i < |a| ==> Clean(a[i])) && forall i :: 0 <= i < |b| ==> Clean(b[i])
    ensures a == b
  {
    if a != [] && b != [] {
      var s := Text(a);
      SameFirst(a[0], Text(a[1..]), b[0], Text(b[1..]));
      LinesAreDetermined(a[1..], b[1..]);
      assert a == [a[0]] + a[1..] && b == [b[0]] + b[1..];
    }
  }

  lemma SameFirst(x: string, s: string, y: string, t: string)
    requires Clean(x) && Clean(y) && x + LineEnd() + s == y + LineEnd() + t
    ensures x == y && s == t
  {
    var l := x + LineEnd() + s;
    var r := y + LineEnd() + t;
    assert l[|x|] == '\r' && r[|y|] == '\r' && Control('\r');
    forall i | 0 <= i < |x| ensures l[i] != '\r' { assert l[i] == x[i]; }
    forall i | 0 <= i < |y| ensures r[i] != '\r' { assert r[i] == y[i]; }
    assert |x| == |y|;
    assert l[..|x|] == x && r[..|y|] == y && l[|x| + 2..] == s && r[|y| + 2..] == t;
  }

  // ---- the object ----

  class StartupJournal {
    var text: string                // what the file holds
    var written: nat
    var limitReported: bool

    ghost function View(): Journal
      reads this
    {
      Journal(text, written, limitReported)
    }

    constructor ()
      ensures View() == EMPTY
    {
      text, written, limitReported := "", 0, false;
    }

    method Append(bytes: string, o: Outcome)
      modifies this`text, this`written
      ensures View() == Appended(old(View()), bytes, limitReported, o)
    {
      if o.Accepted? {
        var taken := if o.count < |bytes| then bytes[..o.count] else bytes;
        text, written := text + taken, written + |taken|;
      }
    }

    method Write(stamp: string, line: string, o: Outcome)
      modifies this
      ensures View() == WriteLine(old(View()), stamp, line, o)
    {
      if limitReported { return; }
      var bytes := stamp;
      bytes := bytes + SingleLine(line, MAXIMUM_LINE);
      bytes := bytes + LineEnd();
      if written + |bytes| > MAXIMUM_JOURNAL {
        bytes, limitReported := Marker() + LineEnd(), true;
        if written + |bytes| > MAXIMUM_JOURNAL { return; }
      }
      Append(bytes, o);
    }
  }
}
