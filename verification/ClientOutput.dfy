/** The filter that keeps startup errors of the client's output, and how long its result can get. */
module ClientOutput {
  import opened Common
  import opened StartupLog
  import Decimal

  const MAXIMUM_ARTIFACT: nat := 131072
  const RESERVE: nat := 2048
  const MAXIMUM_KEPT: nat := 2048

  function Header(): string { "HL Client startup/error output (bounded and filtered)\r\n" }

  // ---- which lines are kept ----

  function LowerChar(c: char): char { if 'A' <= c <= 'Z' then (c as int + 32) as char else c }

  function Lowercase(s: string): (r: string)
    ensures |r| == |s| && forall i :: 0 <= i < |s| ==> r[i] == LowerChar(s[i])
  {
    seq(|s|, i requires 0 <= i < |s| => LowerChar(s[i]))
  }

  predicate OccursAt(s: string, word: string, i: nat) { i + |word| <= |s| && s[i..i + |word|] == word }

  ghost predicate Contains(s: string, word: string) { exists i: nat :: OccursAt(s, word, i) }

  ghost predicate ContainsAny(s: string, words: seq<string>) { exists k :: 0 <= k < |words| && Contains(s, words[k]) }
  predicate StartsWithAny(s: string, words: seq<string>) { exists k :: 0 <= k < |words| && StartsWith(s, words[k]) }

  function Sensitive(): seq<string> {
    ["password", "passwd", "ticket", "token", "steamid", "steam_id", "userinfo",
     "setinfo", "authorization", "authentication", "[chat]", "[game]", "[server]", "rcon"]
  }

  function Subsystems(): seq<string> { ["sdl", "opengl", "wgl", "renderer", "video", "driver", "runtime"] }
  function Failures(): seq<string> { ["failed", "failure", "error", "unavailable", "unsupported", "exception"] }

  ghost predicate IsStartupError(line: string) {
    var lower := Lowercase(line);
    && 0 < |line| <= 8192
    && !ContainsAny(lower, Sensitive())
    && (|| StartsWithAny(lower, ["[external-status]", "[opengl-startup]", "[fatal]", "fatal:"])
        || (StartsWithAny(lower, ["[error]", "[warning]", "sdl ", "opengl ", "wgl "])
            && ContainsAny(lower, Subsystems()) && ContainsAny(lower, Failures())))
  }

  // ---- the filter ----

  datatype Filtered = Filtered(output: string, kept: nat, omitted: nat, left: string)

  /** `output` so far, and what is left to read. */
  ghost function Filter(f: Filtered): Filtered
    decreases |f.left|
  {
    if f.left == "" || |f.output| >= MAXIMUM_ARTIFACT - RESERVE then f
    else
      var newline := IndexOf(f.left, '\n');
      Filter(TakeLine(f, f.left[..newline], if newline == |f.left| then "" else f.left[newline + 1..]))
  }

  ghost function TakeLine(f: Filtered, line: string, left: string): Filtered {
    if IsStartupError(line) then
      Filtered(f.output + SingleLine(line, MAXIMUM_KEPT) + LineEnd(), f.kept + 1, f.omitted, left)
    else if line != "" then Filtered(f.output, f.kept, f.omitted + 1, left)
    else f.(left := left)
  }

  function Trailer(f: Filtered): string {
    "retained_startup_lines=" + Decimal.Print(f.kept) + " omitted_other_lines=" + Decimal.Print(f.omitted) + LineEnd()
    + (if f.left != "" then "input_truncated=true\r\n" else "")
  }

  function Start(bytes: string): Filtered { Filtered(Header(), 0, 0, bytes) }

  /** The text that is to become the artifact. */
  ghost function Artifact(bytes: string): string {
    var f := Filter(Start(bytes));
    f.output + Trailer(f)
  }

  /** The artifact is written only within its limit. */
  ghost predicate Written(bytes: string) { |Artifact(bytes)| <= MAXIMUM_ARTIFACT }

  // ---- what the artifact holds ----

  function LinesOf(bytes: string): seq<string>
    decreases |bytes|
  {
    if bytes == "" then []
    else
      var newline := IndexOf(bytes, '\n');
      [bytes[..newline]] + (if newline == |bytes| then [] else LinesOf(bytes[newline + 1..]))
  }

  /** The startup errors among the lines, each on one line of its own. */
  ghost function KeptOf(lines: seq<string>): seq<string> {
    if lines == [] then []
    else (if IsStartupError(lines[0]) then [SingleLine(lines[0], MAXIMUM_KEPT)] else []) + KeptOf(lines[1..])
  }

  ghost function OthersIn(lines: seq<string>): nat {
    if lines == [] then 0 else (if lines[0] != "" && !IsStartupError(lines[0]) then 1 else 0) + OthersIn(lines[1..])
  }

  /** The filter has gone through the first lines, kept the startup errors and counted the others. */
  ghost predicate Filters(f: Filtered, g: Filtered, n: nat) {
    && n <= |LinesOf(f.left)|
    && g.output == f.output + Text(KeptOf(LinesOf(f.left)[..n]))
    && g.kept == f.kept + |KeptOf(LinesOf(f.left)[..n])|
    && g.omitted == f.omitted + OthersIn(LinesOf(f.left)[..n])
    && LinesOf(g.left) == LinesOf(f.left)[n..]
  }

  /** The line at the head of the text and what follows it. */
  function FirstLine(left: string): string
    requires left != ""
  {
    left[..IndexOf(left, '\n')]
  }

  function OtherLines(left: string): string
    requires left != ""
  {
    var newline := IndexOf(left, '\n');
    if newline == |left| then "" else left[newline + 1..]
  }

  lemma LinesStep(left: string)
    requires left != ""
    ensures LinesOf(left) == [FirstLine(left)] + LinesOf(OtherLines(left)) && |OtherLines(left)| < |left|
  {
  }

  ghost function KeptLine(line: string): seq<string> {
    if IsStartupError(line) then [SingleLine(line, MAXIMUM_KEPT)] else []
  }

  lemma KeptStep(line: string, rest: seq<string>)
    ensures KeptOf([line] + rest) == KeptLine(line) + KeptOf(rest)
    ensures OthersIn([line] + rest) == (if line != "" && !IsStartupError(line) then 1 else 0) + OthersIn(rest)
  {
    hide IsStartupError, SingleLine;
    assert ([line] + rest)[1..] == rest;
  }

  lemma {:induction false} TextConcatenates(a: seq<string>, b: seq<string>)
    ensures Text(a + b) == Text(a) + Text(b)
  {
    hide LineEnd;
    if a == [] {
      assert a + b == b;
    } else {
      assert (a + b)[0] == a[0] && (a + b)[1..] == a[1..] + b;
      TextConcatenates(a[1..], b);
    }
  }

  lemma TakenText(f: Filtered, line: string, left: string)
    ensures TakeLine(f, line, left).output == f.output + Text(KeptLine(line))
    ensures TakeLine(f, line, left).kept == f.kept + |KeptLine(line)| && TakeLine(f, line, left).left == left
    ensures TakeLine(f, line, left).omitted == f.omitted + (if line != "" && !IsStartupError(line) then 1 else 0)
  {
    EmptyLineIsNoError();
    hide IsStartupError, SingleLine, LineEnd;
    if IsStartupError(line) {
      assert KeptLine(line)[1..] == [];
      Associate(f.output, SingleLine(line, MAXIMUM_KEPT), LineEnd());
    }
  }

  lemma Associate(a: string, b: string, c: string)
    ensures a + b + c == a + (b + c) && a + "" == a && b + c + "" == b + c
  {
  }

  lemma Shift(line: string, lines: seq<string>, n: nat)
    requires n <= |lines|
    ensures ([line] + lines)[..n + 1] == [line] + lines[..n] && ([line] + lines)[n + 1..] == lines[n..]
  {
  }

  lemma FiltersStep(f: Filtered, g: Filtered, n: nat)
    requires f.left != "" && Filters(TakeLine(f, FirstLine(f.left), OtherLines(f.left)), g, n)
    ensures Filters(f, g, n + 1)
  {
    hide LinesOf, IsStartupError, FirstLine, OtherLines, SingleLine, TakeLine, KeptLine, KeptOf, OthersIn, Text;
    var line, left := FirstLine(f.left), OtherLines(f.left);
    LinesStep(f.left);
    TakenText(f, line, left);
    Shift(line, LinesOf(left), n);
    KeptStep(line, LinesOf(left)[..n]);
    TextConcatenates(KeptLine(line), KeptOf(LinesOf(left)[..n]));
    Associate(f.output, Text(KeptLine(line)), Text(KeptOf(LinesOf(left)[..n])));
  }

  lemma EmptyLineIsNoError()
    ensures !IsStartupError("")
  {
  }

  lemma FilterStep(f: Filtered)
    requires f.left != "" && |f.output| < MAXIMUM_ARTIFACT - RESERVE
    ensures Filter(f) == Filter(TakeLine(f, FirstLine(f.left), OtherLines(f.left)))
  {
    hide TakeLine;
  }

  /** The output is the header and the startup errors among the lines that were read, in order; when
      it was not cut short, among all lines. */
  lemma {:induction false} FilterIsExact(f: Filtered) returns (n: nat)
    ensures Filters(f, Filter(f), n)
    ensures Filter(f).left == "" || |Filter(f).output| >= MAXIMUM_ARTIFACT - RESERVE
    decreases |f.left|
  {
    if f.left == "" || |f.output| >= MAXIMUM_ARTIFACT - RESERVE {
      n := 0;
      NothingFiltered(f);
    } else {
      FilterStep(f);
      LinesStep(f.left);
      hide Filters, LinesOf, FirstLine, OtherLines, IsStartupError;
      var next := TakeLine(f, FirstLine(f.left), OtherLines(f.left));
      var m := FilterIsExact(next);
      hide Filter;
      FiltersStep(f, Filter(f), m);
      n := m + 1;
    }
  }

  lemma NothingFiltered(f: Filtered)
    ensures Filters(f, f, 0)
  {
    assert LinesOf(f.left)[..0] == [] && LinesOf(f.left)[0..] == LinesOf(f.left) && f.output + "" == f.output;
  }

  /** The artifact in full: the heading, the startup errors among the lines read, and how many lines
      were retained and omitted; reading stops early only when the output has reached its budget. */
  lemma ArtifactIsExact(bytes: string) returns (n: nat)
    ensures n <= |LinesOf(bytes)|
    ensures var lines := LinesOf(bytes)[..n];
            var heading := "HL Client startup/error output (bounded and filtered)\r\n" + Text(KeptOf(lines));
            && Artifact(bytes) == heading
                 + ("retained_startup_lines=" + Decimal.Print(|KeptOf(lines)|)
                    + " omitted_other_lines=" + Decimal.Print(OthersIn(lines)) + "\r\n"
                    + (if n < |LinesOf(bytes)| then "input_truncated=true\r\n" else ""))
            && (n < |LinesOf(bytes)| ==> |heading| >= 129024)
  {
    hide Filter, LinesOf, KeptOf, OthersIn, Text, Decimal.Print;
    n := FilterIsExact(Start(bytes));
    var g := Filter(Start(bytes));
    LinesLeft(g.left);
    assert LinesOf(g.left) == LinesOf(bytes)[n..];
  }

  lemma LinesLeft(s: string)
    ensures LinesOf(s) == [] <==> s == ""
  {
  }

  // ---- nothing sensitive is kept ----

  predicate Spaceless(word: string) { ' ' !in word }

  lemma SensitiveAreSpaceless()
    ensures forall k :: 0 <= k < |Sensitive()| ==> Spaceless(Sensitive()[k])
  {
  }

  lemma KeptOccurrence(line: string, word: string, i: nat)
    requires Spaceless(word) && OccursAt(Lowercase(SingleLine(line, MAXIMUM_KEPT)), word, i)
    ensures OccursAt(Lowercase(line), word, i)
  {
    var a, b := Lowercase(SingleLine(line, MAXIMUM_KEPT)), Lowercase(line);
    forall k | 0 <= k < |word| ensures b[i + k] == word[k] {
      assert a[i + k] == a[i..i + |word|][k] == word[k];
      assert word[k] in word;
    }
    assert b[i..i + |word|] == word;
  }

  lemma KeptContains(line: string, word: string)
    requires Spaceless(word) && Contains(Lowercase(SingleLine(line, MAXIMUM_KEPT)), word)
    ensures Contains(Lowercase(line), word)
  {
    var i: nat :| OccursAt(Lowercase(SingleLine(line, MAXIMUM_KEPT)), word, i);
    KeptOccurrence(line, word, i);
  }

  /** Blanking control characters and cutting the line cannot bring a sensitive word about. */
  lemma KeptIsHarmless(line: string)
    requires IsStartupError(line)
    ensures !ContainsAny(Lowercase(SingleLine(line, MAXIMUM_KEPT)), Sensitive())
  {
    SensitiveAreSpaceless();
    hide Lowercase, SingleLine, Sensitive, Contains;
    var s := Lowercase(SingleLine(line, MAXIMUM_KEPT));
    if ContainsAny(s, Sensitive()) {
      var k :| 0 <= k < |Sensitive()| && Contains(s, Sensitive()[k]);
      KeptContains(line, Sensitive()[k]);
      assert false;
    }
  }

  lemma {:induction false} AllKeptAreHarmless(lines: seq<string>)
    ensures forall k <- KeptOf(lines) :: !ContainsAny(Lowercase(k), Sensitive())
  {
    hide IsStartupError, ContainsAny, SingleLine, Lowercase, Sensitive;
    if lines != [] {
      AllKeptAreHarmless(lines[1..]);
      if IsStartupError(lines[0]) { KeptIsHarmless(lines[0]); }
    }
  }

  /** No line that the artifact retains holds a sensitive word, in any case of its letters. */
  lemma ArtifactIsHarmless(bytes: string) returns (kept: seq<string>)
    ensures Filter(Start(bytes)).output == Header() + Text(kept)
    ensures forall k <- kept :: !ContainsAny(Lowercase(k),
              ["password", "passwd", "ticket", "token", "steamid", "steam_id", "userinfo", "setinfo", "authorization",
               "authentication", "[chat]", "[game]", "[server]", "rcon"])
  {
    SensitiveSpelled();
    hide Filter, LinesOf, KeptOf, Text, ContainsAny, Lowercase, Sensitive, Header;
    var n := FilterIsExact(Start(bytes));
    kept := KeptOf(LinesOf(bytes)[..n]);
    AllKeptAreHarmless(LinesOf(bytes)[..n]);
  }

  lemma SensitiveSpelled()
    ensures Sensitive() == ["password", "passwd", "ticket", "token", "steamid", "steam_id", "userinfo", "setinfo",
                            "authorization", "authentication", "[chat]", "[game]", "[server]", "rcon"]
  {
  }

  // ---- how long it gets, and which inputs are always written ----

  /** No startup error keeps more than `limit` characters. */
  ghost predicate KeptFit(lines: seq<string>, limit: nat) {
    forall i :: 0 <= i < |lines| && IsStartupError(lines[i]) ==> |SingleLine(lines[i], MAXIMUM_KEPT)| <= limit
  }

  lemma AllFit(lines: seq<string>)
    ensures KeptFit(lines, MAXIMUM_KEPT)
  {
    hide IsStartupError;
  }

  /** The least number with that many digits. */
  function Least(digits: nat): nat
    requires digits > 0
  {
    if digits == 1 then 0 else Decimal.Power(digits - 1)
  }

  /** The length of a kept line up to which the reserve covers it with a trailer of least length. */
  const ROOM: nat := 1974

  /** The digits that the number of omitted lines must have for the artifact to exceed its limit. */
  function Excess(limit: nat): (digits: nat)
    ensures digits > 0
  {
    if limit >= ROOM then 1 else ROOM - limit + 1
  }

  /** The length of the shortest input with kept lines up to `limit` that is not written: lines to
      omit, 16121 shortest errors, one of full length and one character that is not read. */
  function Need(limit: nat): nat {
    112849 + (if limit >= ROOM then ROOM else limit) + 2 * Least(Excess(limit))
  }

  /** What the filter has used of an input of length `total`. A kept line has at least six
      characters, an omitted one at least one. */
  ghost predicate Spent(f: Filtered, total: nat, limit: nat) {
    && 55 + 8 * f.kept <= |f.output| <= 129025 + limit
    && 8 * f.kept <= 128976
    && |f.left| + |f.output| - 55 + 2 * f.omitted <= total + f.kept + (if f.left == "" then 1 else 0)
  }

  lemma ErrorsAreLong(line: string)
    requires IsStartupError(line)
    ensures |line| >= 6
  {
    var lower := Lowercase(line);
    hide Lowercase, ContainsAny;
    var fatal := ["[external-status]", "[opengl-startup]", "[fatal]", "fatal:"];
    var others := ["[error]", "[warning]", "sdl ", "opengl ", "wgl "];
    if StartsWithAny(lower, fatal) {
      var k :| 0 <= k < |fatal| && StartsWith(lower, fatal[k]);
    } else {
      var k :| 0 <= k < |others| && StartsWith(lower, others[k]);
      FailuresAreLong(lower);
      assert lower[0] == others[k][0] != 'e';
      assert lower != "error";
    }
  }

  lemma FailuresAreLong(lower: string)
    requires ContainsAny(lower, Failures())
    ensures |lower| >= 6 || lower == "error"
  {
    var words := Failures();
    var k :| 0 <= k < |words| && Contains(lower, words[k]);
    var i: nat :| OccursAt(lower, words[k], i);
    if |lower| < 6 {
      assert words[k] == "error" && i == 0;
      assert lower[0..5] == lower;
    }
  }

  lemma LineLengths(left: string)
    requires left != ""
    ensures var line, rest := FirstLine(left), OtherLines(left);
            if |line| < |left| then |rest| == |left| - |line| - 1 else rest == "" && |line| == |left|
  {
  }

  lemma SpentStep(f: Filtered, total: nat, limit: nat)
    requires f.left != "" && |f.output| < MAXIMUM_ARTIFACT - RESERVE && Spent(f, total, limit)
    requires var line := FirstLine(f.left); IsStartupError(line) ==> |SingleLine(line, MAXIMUM_KEPT)| <= limit
    ensures Spent(TakeLine(f, FirstLine(f.left), OtherLines(f.left)), total, limit)
  {
    var line, rest := FirstLine(f.left), OtherLines(f.left);
    LineLengths(f.left);
    if IsStartupError(line) { ErrorsAreLong(line); }
    hide IsStartupError, FirstLine, OtherLines;
  }

  lemma {:induction false} SpentFilter(f: Filtered, total: nat, limit: nat)
    requires KeptFit(LinesOf(f.left), limit) && Spent(f, total, limit)
    ensures Spent(Filter(f), total, limit)
    decreases |f.left|
  {
    if f.left == "" || |f.output| >= MAXIMUM_ARTIFACT - RESERVE {
      FilterStops(f);
    } else {
      FilterStep(f);
      LinesStep(f.left);
      hide Filter, FirstLine, OtherLines, IsStartupError, LinesOf, Spent, SingleLine;
      var line, left := FirstLine(f.left), OtherLines(f.left);
      var lines := LinesOf(left);
      assert LinesOf(f.left)[0] == line && forall i :: 0 <= i < |lines| ==> LinesOf(f.left)[i + 1] == lines[i];
      SpentStep(f, total, limit);
      assert TakeLine(f, line, left).left == left by { hide KeptFit; }
      SpentFilter(TakeLine(f, line, left), total, limit);
    }
  }

  lemma SpentAll(bytes: string, limit: nat)
    requires KeptFit(LinesOf(bytes), limit)
    ensures Spent(Filter(Start(bytes)), |bytes|, limit)
  {
    HeaderLength();
    hide KeptFit, LinesOf, Filter, Header;
    SpentFilter(Start(bytes), |bytes|, limit);
  }

  lemma TrailerLength(f: Filtered)
    ensures |Trailer(f)| == 46 + |Decimal.Print(f.kept)| + |Decimal.Print(f.omitted)| + if f.left != "" then 22 else 0
  {
    hide Decimal.Print;
    assert |"retained_startup_lines="| == 23 && |" omitted_other_lines="| == 21 && |"input_truncated=true\r\n"| == 22;
  }

  lemma FewKept(f: Filtered, total: nat, limit: nat)
    requires Spent(f, total, limit)
    ensures |Decimal.Print(f.kept)| <= 5
    ensures 2 * f.omitted <= total + 1
  {
    assert Decimal.Power(5) == 100000;
    hide Decimal.Power;
    Decimal.PrintLength(f.kept, 5);
  }

  lemma LeastDigits(n: nat)
    ensures n >= Least(|Decimal.Print(n)|)
  {
    var d := |Decimal.Print(n)|;
    if d > 1 && n < Decimal.Power(d - 1) { Decimal.PrintLength(n, d - 1); }
  }

  /** Another digit takes more lines than it saves characters. */
  lemma {:induction false} DigitsCost(m: nat, d: nat)
    requires 0 < m <= d
    ensures 2 * Least(m) - m <= 2 * Least(d) - d
  {
    if m < d {
      DigitsCost(m, d - 1);
      assert Decimal.Power(d - 1) == 10 * Decimal.Power(d - 2);
    }
  }

  /** A filter result over the limit has used up at least the shortest such input. */
  lemma OverflowNeeds(f: Filtered, total: nat, limit: nat)
    requires Spent(f, total, limit) && |f.output + Trailer(f)| > MAXIMUM_ARTIFACT
    ensures total >= Need(limit)
  {
    var d, m := |Decimal.Print(f.omitted)|, Excess(limit);
    TrailerLength(f);
    FewKept(f, total, limit);
    LeastDigits(f.omitted);
    assert |f.output + Trailer(f)| == |f.output| + |Trailer(f)|;
    hide Trailer, Decimal.Print, Least;
    assert d >= m;
    DigitsCost(m, d);
  }

  /** The same for any length that takes at least `digits` digits to exceed. */
  lemma LengthNeeds(f: Filtered, total: nat, limit: nat, digits: nat)
    requires Spent(f, total, limit) && digits > 0 && |f.output + Trailer(f)| > 129097 + limit + digits
    ensures total >= 112849 + limit + 2 * Least(digits)
  {
    var d := |Decimal.Print(f.omitted)|;
    TrailerLength(f);
    FewKept(f, total, limit);
    LeastDigits(f.omitted);
    assert |f.output + Trailer(f)| == |f.output| + |Trailer(f)|;
    hide Trailer, Decimal.Print, Least;
    assert d >= digits;
    DigitsCost(digits, d);
  }

  /** Every input that is shorter is written. */
  lemma ShortInputsAreWritten(bytes: string, limit: nat)
    requires KeptFit(LinesOf(bytes), limit) && |bytes| < Need(limit)
    ensures Written(bytes)
  {
    hide Spent, Filter, Need, KeptFit, LinesOf, Trailer, Start;
    SpentAll(bytes, limit);
    var g := Filter(Start(bytes));
    if |g.output + Trailer(g)| > MAXIMUM_ARTIFACT { OverflowNeeds(g, |bytes|, limit); }
  }

  // ---- the bound is reached ----

  predicate Plain(c: char) { c in "fatal:x" }

  /** A line of `n` characters that is always kept. */
  function KeptExample(n: nat): (line: string)
    requires n >= 6
    ensures |line| == n && forall i :: 0 <= i < n ==> Plain(line[i])
  {
    "fatal:" + seq(n - 6, _ => 'x')
  }

  /** In each sensitive word, the position of a letter that the example does not use. */
  function Foreign(): seq<nat> { [0, 0, 1, 1, 0, 0, 0, 0, 1, 1, 0, 0, 0, 0] }

  lemma ForeignLetters()
    ensures |Foreign()| == |Sensitive()|
    ensures forall k :: 0 <= k < |Sensitive()| ==> Foreign()[k] < |Sensitive()[k]| && !Plain(Sensitive()[k][Foreign()[k]])
  {
  }

  lemma PlainHasNone(line: string, word: string, n: nat)
    requires (forall i :: 0 <= i < |line| ==> Plain(line[i])) && n < |word| && !Plain(word[n])
    ensures !Contains(line, word)
  {
    forall i: nat ensures !OccursAt(line, word, i) {
      if i + |word| <= |line| { assert line[i..i + |word|][n] == line[i + n]; }
    }
  }

  lemma PlainIsLower(line: string)
    requires forall i :: 0 <= i < |line| ==> Plain(line[i])
    ensures Lowercase(line) == line && SingleLine(line, |line|) == line && '\n' !in line
  {
    assert forall i :: 0 <= i < |line| ==> LowerChar(line[i]) == line[i] && !Control(line[i]);
  }

  lemma ExampleIsKept(n: nat)
    requires 6 <= n <= MAXIMUM_KEPT
    ensures IsStartupError(KeptExample(n))
  {
    var line := KeptExample(n);
    PlainIsLower(line);
    ForeignLetters();
    forall k | 0 <= k < |Sensitive()| ensures !Contains(line, Sensitive()[k]) {
      PlainHasNone(line, Sensitive()[k], Foreign()[k]);
    }
    hide Sensitive, Plain, Contains;
    var prefixes := ["[external-status]", "[opengl-startup]", "[fatal]", "fatal:"];
    assert StartsWith(line, prefixes[3]) by { assert line[..6] == "fatal:"; }
  }

  lemma {:induction false} NewlineAt(line: string, rest: string)
    requires '\n' !in line
    ensures IndexOf(line + "\n" + rest, '\n') == |line|
  {
    var s := line + "\n" + rest;
    if line != "" {
      assert s[0] == line[0] && s[1..] == line[1..] + "\n" + rest;
      NewlineAt(line[1..], rest);
    }
  }

  /** The filter keeps an example in front of the rest. */
  lemma ExampleStep(f: Filtered, n: nat, rest: string) returns (g: Filtered)
    requires 6 <= n <= MAXIMUM_KEPT && f.left == KeptExample(n) + "\n" + rest
    requires |f.output| < MAXIMUM_ARTIFACT - RESERVE
    ensures Filter(g) == Filter(f) && g.left == rest && |g.output| == |f.output| + n + 2
    ensures g.kept == f.kept + 1 && g.omitted == f.omitted
  {
    var line := KeptExample(n);
    ExampleIsKept(n);
    PlainIsLower(line);
    hide IsStartupError, KeptExample, Filter;
    NewlineAt(line, rest);
    FilterStep(f);
    assert FirstLine(f.left) == line && OtherLines(f.left) == rest;
    g := TakeLine(f, line, rest);
  }

  function Repeated(n: nat, count: nat): string
    requires n >= 6
  {
    if count == 0 then "" else KeptExample(n) + "\n" + Repeated(n, count - 1)
  }

  lemma {:induction false} RepeatedSteps(f: Filtered, n: nat, count: nat, rest: string) returns (g: Filtered)
    requires 6 <= n <= MAXIMUM_KEPT && f.left == Repeated(n, count) + rest
    requires |f.output| + (n + 2) * count <= MAXIMUM_ARTIFACT - RESERVE
    ensures Filter(g) == Filter(f) && g.left == rest && |g.output| == |f.output| + (n + 2) * count
    ensures g.kept == f.kept + count && g.omitted == f.omitted
    decreases count
  {
    hide KeptExample, Filter;
    if count == 0 {
      g := f;
    } else {
      assert f.left == KeptExample(n) + "\n" + (Repeated(n, count - 1) + rest);
      assert (n + 2) * count == (n + 2) * (count - 1) + n + 2;
      var h := ExampleStep(f, n, Repeated(n, count - 1) + rest);
      g := RepeatedSteps(h, n, count - 1, rest);
    }
  }

  lemma HeaderLength()
    ensures |Header()| == 55
  {
  }

  // ---- the shortest inputs that are not written ----

  function Filler(count: nat): string { if count == 0 then "" else "x" + "\n" + Filler(count - 1) }

  /** Lines to omit, shortest errors, a last one, and one character more. */
  function Crowded(omitted: nat, count: nat, last: nat): string
    requires last >= 6
  {
    Filler(omitted) + (Repeated(6, count) + (KeptExample(last) + "\n" + "x"))
  }

  lemma FillerIsNoError()
    ensures !IsStartupError("x") && "x" != ""
  {
    var lower := Lowercase("x");
    assert |lower| == 1;
    hide ContainsAny, Lowercase;
  }

  lemma FillerStep(f: Filtered, rest: string)
    requires f.left == "x" + "\n" + rest && |f.output| < MAXIMUM_ARTIFACT - RESERVE
    ensures Filter(f) == Filter(f.(omitted := f.omitted + 1, left := rest))
  {
    FillerIsNoError();
    hide IsStartupError, Filter;
    NewlineAt("x", rest);
    FilterStep(f);
    assert FirstLine(f.left) == "x" && OtherLines(f.left) == rest;
  }

  lemma {:induction false} FillerSteps(f: Filtered, count: nat, rest: string) returns (g: Filtered)
    requires f.left == Filler(count) + rest && |f.output| < MAXIMUM_ARTIFACT - RESERVE
    ensures Filter(g) == Filter(f) && g == f.(omitted := f.omitted + count, left := rest)
    decreases count
  {
    hide Filter;
    if count == 0 {
      assert f.left == rest;
      g := f;
    } else {
      assert f.left == "x" + "\n" + (Filler(count - 1) + rest);
      FillerStep(f, Filler(count - 1) + rest);
      g := FillerSteps(f.(omitted := f.omitted + 1, left := Filler(count - 1) + rest), count - 1, rest);
    }
  }

  lemma LineFirst(line: string, rest: string)
    requires '\n' !in line
    ensures LinesOf(line + "\n" + rest) == [line] + LinesOf(rest)
  {
    var s := line + "\n" + rest;
    NewlineAt(line, rest);
    assert s[..|line|] == line && s[|line| + 1..] == rest;
  }

  lemma FitsFirst(line: string, rest: string, limit: nat)
    requires '\n' !in line && KeptFit(LinesOf(rest), limit)
    requires IsStartupError(line) ==> |line| <= limit
    ensures KeptFit(LinesOf(line + "\n" + rest), limit)
  {
    LineFirst(line, rest);
    hide LinesOf, IsStartupError;
  }

  lemma {:induction false} FillerFits(count: nat, rest: string, limit: nat)
    requires KeptFit(LinesOf(rest), limit)
    ensures KeptFit(LinesOf(Filler(count) + rest), limit) && |Filler(count)| == 2 * count
  {
    hide KeptFit, LinesOf, IsStartupError;
    if count == 0 {
      assert Filler(count) + rest == rest;
    } else {
      FillerFits(count - 1, rest, limit);
      FillerIsNoError();
      FitsFirst("x", Filler(count - 1) + rest, limit);
      assert Filler(count) + rest == "x" + "\n" + (Filler(count - 1) + rest);
    }
  }

  lemma {:induction false} RepeatedFits(n: nat, count: nat, rest: string, limit: nat)
    requires 6 <= n <= limit && KeptFit(LinesOf(rest), limit)
    ensures KeptFit(LinesOf(Repeated(n, count) + rest), limit) && |Repeated(n, count)| == (n + 1) * count
  {
    hide KeptFit, LinesOf, IsStartupError, KeptExample;
    if count == 0 {
      assert Repeated(n, count) + rest == rest;
    } else {
      RepeatedFits(n, count - 1, rest, limit);
      PlainIsLower(KeptExample(n));
      FitsFirst(KeptExample(n), Repeated(n, count - 1) + rest, limit);
      assert Repeated(n, count) + rest == KeptExample(n) + "\n" + (Repeated(n, count - 1) + rest);
      assert (n + 1) * count == (n + 1) * (count - 1) + n + 1;
    }
  }

  lemma SingleCharacter()
    ensures LinesOf("x") == ["x"]
  {
    assert IndexOf("x", '\n') == 1 by { assert "x"[0] == 'x'; }
    assert "x"[..1] == "x";
  }

  lemma CrowdedFits(omitted: nat, count: nat, last: nat, limit: nat)
    requires 6 <= last <= limit
    ensures KeptFit(LinesOf(Crowded(omitted, count, last)), limit)
    ensures |Crowded(omitted, count, last)| == 2 * omitted + 7 * count + last + 2
  {
    SingleCharacter();
    FillerIsNoError();
    assert KeptFit(LinesOf("x"), limit);
    hide KeptFit, LinesOf, IsStartupError, KeptExample;
    PlainIsLower(KeptExample(last));
    FitsFirst(KeptExample(last), "x", limit);
    RepeatedFits(6, count, KeptExample(last) + "\n" + "x", limit);
    FillerFits(omitted, Repeated(6, count) + (KeptExample(last) + "\n" + "x"), limit);
  }

  lemma {:induction false} PowerDigits(k: nat)
    ensures |Decimal.Print(Decimal.Power(k))| == k + 1
  {
    if k > 0 { PowerDigits(k - 1); }
  }

  lemma LeastHasDigits(digits: nat)
    requires digits > 0
    ensures |Decimal.Print(Least(digits))| == digits
  {
    if digits > 1 { PowerDigits(digits - 1); }
  }

  /** The filter reads such an input up to its last character. */
  lemma CrowdedFiltered(omitted: nat, count: nat, last: nat) returns (g: Filtered)
    requires 6 <= last <= MAXIMUM_KEPT && 55 + 8 * count < MAXIMUM_ARTIFACT - RESERVE <= 57 + 8 * count + last
    ensures g == Filter(Start(Crowded(omitted, count, last))) && g.left == "x"
    ensures |g.output| == 57 + 8 * count + last && g.kept == count + 1 && g.omitted == omitted
  {
    var end := KeptExample(last) + "\n" + "x";
    HeaderLength();
    var start := Start(Crowded(omitted, count, last));
    assert start.left == Filler(omitted) + (Repeated(6, count) + end);
    hide KeptExample, Repeated, Filler, Filter, Header, Crowded;
    var f := FillerSteps(start, omitted, Repeated(6, count) + end);
    f := RepeatedSteps(f, 6, count, end);
    f := ExampleStep(f, last, "x");
    FilterStops(f);
    g := f;
  }

  /** The number of shortest errors that fill the output up to one character below the budget. */
  const FULL: nat := 16121

  /** How long the artifact of such an input is. */
  lemma CrowdedLength(digits: nat, count: nat, last: nat)
    requires 6 <= last <= MAXIMUM_KEPT && digits > 0 && 8 * count == 128968
    ensures |Artifact(Crowded(Least(digits), count, last))| == 129098 + last + digits
  {
    hide Filter, Trailer, Least, Crowded, Start, Decimal.Print;
    var g := CrowdedFiltered(Least(digits), count, last);
    LeastHasDigits(digits);
    TrailerLength(g);
    FiveDigits(g.kept);
  }

  /** An input for which the text before the trailer is one byte over the limit, so that the artifact
      is not written. */
  lemma CaptureCanOverflow() returns (bytes: string)
    ensures |Filter(Start(bytes)).output| == MAXIMUM_ARTIFACT + 1
    ensures !Written(bytes)
  {
    hide Filter, Trailer, Crowded, Start;
    bytes := Crowded(0, FULL, MAXIMUM_KEPT);
    var g := CrowdedFiltered(0, FULL, MAXIMUM_KEPT);
    TrailerLength(g);
  }

  lemma {:induction false} DigitsAtLeast(n: nat, k: nat)
    requires n >= Decimal.Power(k)
    ensures |Decimal.Print(n)| > k
  {
    if k > 0 { DigitsAtLeast(n / 10, k - 1); }
  }

  lemma FiveDigits(n: nat)
    requires 10000 <= n < 100000
    ensures |Decimal.Print(n)| == 5
  {
    assert Decimal.Power(4) == 10000 && Decimal.Power(5) == 100000;
    hide Decimal.Power;
    DigitsAtLeast(n, 4);
    Decimal.PrintLength(n, 5);
  }

  /** How long artifacts get, exactly: with no kept line longer than `limit`, those of inputs of at
      most `size` characters stay within the bound if and only if `size` is below the cost of one more. */
  lemma LengthExact(limit: nat, digits: nat, size: nat)
    requires 6 <= limit <= MAXIMUM_KEPT && digits > 0
    ensures (forall bytes | |bytes| <= size && KeptFit(LinesOf(bytes), limit) :: |Artifact(bytes)| <= 129097 + limit + digits)
            <==> size < 112849 + limit + 2 * Least(digits)
  {
    hide Least, Crowded, KeptFit, LinesOf, Artifact;
    forall bytes | |bytes| < 112849 + limit + 2 * Least(digits) && KeptFit(LinesOf(bytes), limit)
      ensures |Artifact(bytes)| <= 129097 + limit + digits
    {
      ShortInputsAreBounded(bytes, limit, digits);
    }
    CrowdedFits(Least(digits), FULL, limit, limit);
    CrowdedLength(digits, FULL, limit);
  }

  lemma ShortInputsAreBounded(bytes: string, limit: nat, digits: nat)
    requires digits > 0 && |bytes| < 112849 + limit + 2 * Least(digits) && KeptFit(LinesOf(bytes), limit)
    ensures |Artifact(bytes)| <= 129097 + limit + digits
  {
    hide Spent, Filter, Least, KeptFit, LinesOf, Trailer, Start;
    SpentAll(bytes, limit);
    var g := Filter(Start(bytes));
    if |g.output + Trailer(g)| > 129097 + limit + digits { LengthNeeds(g, |bytes|, limit, digits); }
  }

  /** With any lines the text before the trailer is at most one byte over the limit, and the trailer
      adds 72 characters and the digits of the number of omitted lines, for which the input must be
      long enough. */
  lemma ArtifactIsBounded(size: nat, digits: nat)
    requires digits > 0
    ensures (forall bytes | |bytes| <= size :: |Artifact(bytes)| <= MAXIMUM_ARTIFACT + 73 + digits)
            <==> size < 114897 + 2 * Least(digits)
  {
    LengthExact(MAXIMUM_KEPT, digits, size);
    hide Artifact, Least, LinesOf, KeptFit;
    forall bytes ensures KeptFit(LinesOf(bytes), MAXIMUM_KEPT) { AllFit(LinesOf(bytes)); }
  }

  ghost predicate AlwaysWritten(limit: nat, size: nat) {
    forall bytes | |bytes| <= size && KeptFit(LinesOf(bytes), limit) :: Written(bytes)
  }

  /** The artifact of every input of at most `size` characters, with no kept line longer than `limit`,
      is written if and only if `size` is below the length of the shortest one that is not. */
  lemma WrittenExactly(limit: nat, size: nat)
    requires limit >= 6
    ensures AlwaysWritten(limit, size) <==> size < Need(limit)
  {
    hide Least, Crowded, KeptFit, LinesOf, Artifact;
    forall bytes | |bytes| < Need(limit) && KeptFit(LinesOf(bytes), limit) ensures Written(bytes) {
      ShortInputsAreWritten(bytes, limit);
    }
    var last := if limit >= ROOM then ROOM else limit;
    CrowdedFits(Least(Excess(limit)), FULL, last, limit);
    CrowdedLength(Excess(limit), FULL, last);
  }

  /** Longer lines can only bring an overflow about sooner. */
  lemma NeedFalls(short: nat, long: nat)
    requires short <= long
    ensures Need(long) <= Need(short)
  {
    DigitsCost(Excess(long), Excess(short));
    hide Least;
  }

  lemma ThresholdAt(size: nat, threshold: nat, limit: nat)
    requires limit >= 6 && Need(threshold + 1) <= size < Need(threshold)
    ensures AlwaysWritten(limit, size) <==> limit <= threshold
  {
    hide Need, AlwaysWritten;
    WrittenExactly(limit, size);
    if limit <= threshold { NeedFalls(limit, threshold); } else { NeedFalls(threshold + 1, limit); }
  }

  const DEFAULT_CAPTURE: nat := 1024 * 1024
  const LARGEST_CAPTURE: nat := 16 * 1024 * 1024

  lemma Needs()
    ensures Need(1969) <= DEFAULT_CAPTURE < Need(1968)
    ensures Need(1968) <= LARGEST_CAPTURE < Need(1967)
  {
    assert Decimal.Power(5) == 100000 && Decimal.Power(6) == 1000000 && Decimal.Power(7) == 10000000;
    hide Decimal.Power;
  }

  /** For the default capture size and for the largest one a process log may be given: the longest
      kept line with which the artifact is always written. */
  lemma CaptureThresholds(limit: nat)
    requires limit >= 6
    ensures AlwaysWritten(limit, DEFAULT_CAPTURE) <==> limit <= 1968
    ensures AlwaysWritten(limit, LARGEST_CAPTURE) <==> limit <= 1967
  {
    Needs();
    hide Need, AlwaysWritten;
    ThresholdAt(DEFAULT_CAPTURE, 1968, limit);
    ThresholdAt(LARGEST_CAPTURE, 1967, limit);
  }

  /** Without any condition on the lines: inputs of fewer characters are written, and this is the
      shortest length for which some input is not. */
  lemma ShortCapturesAreWritten(size: nat)
    ensures (forall bytes | |bytes| <= size :: Written(bytes)) <==> size < 114823
  {
    assert Need(MAXIMUM_KEPT) == 114823;
    hide Need, Written, LinesOf, KeptFit;
    WrittenExactly(MAXIMUM_KEPT, size);
    AnyLimit(size);
  }

  lemma AnyLimit(size: nat)
    ensures AlwaysWritten(MAXIMUM_KEPT, size) <==> forall bytes | |bytes| <= size :: Written(bytes)
  {
    hide Written, LinesOf, KeptFit;
    forall bytes ensures KeptFit(LinesOf(bytes), MAXIMUM_KEPT) { AllFit(LinesOf(bytes)); }
  }

  /** No startup error keeps fewer than six characters, so that shorter limits admit none at all. */
  lemma NoShorterErrors(bytes: string, limit: nat)
    requires limit < 6 && KeptFit(LinesOf(bytes), limit)
    ensures forall i :: 0 <= i < |LinesOf(bytes)| ==> !IsStartupError(LinesOf(bytes)[i])
  {
    var lines := LinesOf(bytes);
    forall i | 0 <= i < |lines| && IsStartupError(lines[i]) ensures false {
      ErrorsAreLong(lines[i]);
    }
  }

  // ---- the filter as it runs ----

  method FindWord(s: string, word: string) returns (found: bool)
    ensures found <==> Contains(s, word)
  {
    var i := 0;
    while i + |word| <= |s|
      invariant forall j: nat :: j < i ==> !OccursAt(s, word, j)
    {
      if s[i..i + |word|] == word {
        assert OccursAt(s, word, i);
        return true;
      }
      i := i + 1;
    }
    return false;
  }

  method FindAny(s: string, words: seq<string>) returns (found: bool)
    ensures found <==> ContainsAny(s, words)
  {
    hide Contains;
    for k := 0 to |words|
      invariant forall j :: 0 <= j < k ==> !Contains(s, words[j])
    {
      found := FindWord(s, words[k]);
      if found { return; }
    }
    return false;
  }

  method CheckStartupError(line: string) returns (keep: bool)
    ensures keep <==> IsStartupError(line)
  {
    hide ContainsAny, StartsWithAny, Lowercase, Sensitive, Subsystems, Failures;
    if line == "" || |line| > 8192 { return false; }
    var lower := Lowercase(line);
    var sensitive := FindAny(lower, Sensitive());
    if sensitive { return false; }
    if StartsWithAny(lower, ["[external-status]", "[opengl-startup]", "[fatal]", "fatal:"]) { return true; }
    if !StartsWithAny(lower, ["[error]", "[warning]", "sdl ", "opengl ", "wgl "]) { return false; }
    var startup := FindAny(lower, Subsystems());
    var error := FindAny(lower, Failures());
    return startup && error;
  }

  method CaptureOutput(bytes: string) returns (artifact: string)
    ensures artifact == Artifact(bytes)
  {
    hide IsStartupError, IndexOf, SingleLine, Header, Trailer;
    var output, kept, omitted, left := Header(), 0, 0, bytes;
    while left != "" && |output| < MAXIMUM_ARTIFACT - RESERVE
      invariant Filter(Filtered(output, kept, omitted, left)) == Filter(Start(bytes))
      decreases |left|
    {
      ghost var f := Filtered(output, kept, omitted, left);
      FilterStep(f);
      var newline := IndexOf(left, '\n');
      var line := left[..newline];
      hide Filter;
      var keep := CheckStartupError(line);
      if keep {
        output := output + SingleLine(line, MAXIMUM_KEPT);
        output := output + LineEnd();
        kept := kept + 1;
      } else if line != "" {
        omitted := omitted + 1;
      }
      left := if newline == |left| then "" else left[newline + 1..];
      EmptyLineIsNoError();
      assert Filtered(output, kept, omitted, left) == TakeLine(f, FirstLine(f.left), OtherLines(f.left));
    }
    ghost var g := Filtered(output, kept, omitted, left);
    FilterStops(g);
    artifact := output + Trailer(Filtered(output, kept, omitted, left));
  }

  lemma FilterStops(f: Filtered)
    requires f.left == "" || |f.output| >= MAXIMUM_ARTIFACT - RESERVE
    ensures Filter(f) == f
  {
  }
}
