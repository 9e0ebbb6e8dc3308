/** Planning the start of the original game: what is refused, and why the command line of an accepted
    plan can only be read back as the executable and the intended arguments. */
module LaunchPlan {
  import opened Common
  import opened ArgumentQuoting
  import Decimal
  import Endpoint

  datatype Request = Request(endpoint: string, playerName: string, width: int, height: int,
                             windowed: bool, displayIndex: nat)

  /** `parentMatches` is what the path library says of the executable's parent and the root. */
  datatype Installation = Installation(root: string, executable: string, error: string, parentMatches: bool)

  datatype Processes = Processes(complete: bool, steamRunning: bool, halfLifeRunning: bool, error: string)

  datatype Plan =
    | Refused(error: string)
    | Accepted(executable: string, workingDirectory: string, arguments: seq<string>, commandLine: string)

  // ---- what is accepted ----

  predicate Letter(c: char) { 'A' <= c <= 'Z' || 'a' <= c <= 'z' }
  predicate Separates(c: char) { c == '\\' || c == '/' }

  /** Characters that no path may hold; a colon only behind the drive letter. */
  predicate Forbidden(c: char, i: nat) {
    c < ' ' || c == QUOTE || c == '|' || c == '<' || c == '>' || c == '*' || c == '?' || (c == ':' && i != 1)
  }

  function Components(s: string): seq<string> {
    if s == "" then [""]
    else
      var rest := Components(s[1..]);
      if Separates(s[0]) then [""] + rest else [[s[0]] + rest[0]] + rest[1..]
  }

  predicate SafePath(s: string) {
    && 3 <= |s| <= 4096 && Letter(s[0]) && s[1] == ':' && Separates(s[2])
    && (forall i :: 0 <= i < |s| ==> !Forbidden(s[i], i))
    && (forall part <- Components(s) :: part != "." && part != "..")
  }

  /** What follows the last separator. */
  function FileName(s: string): string {
    if s == "" then "" else if Separates(s[|s| - 1]) then "" else FileName(s[..|s| - 1]) + [s[|s| - 1]]
  }

  function Lower(c: char): char { if 'A' <= c <= 'Z' then (c as int + 32) as char else c }

  predicate EqualIgnoringCase(a: string, b: string) {
    |a| == |b| && forall i :: 0 <= i < |a| ==> Lower(a[i]) == Lower(b[i])
  }

  predicate NameChar(c: char) {
    ' ' <= c <= '~' && c != QUOTE && c != '\\' && c != ';' && c != '+'
  }

  predicate ValidName(s: string) {
    && 0 < |s| <= 31 && s[0] != '-'
    && (forall i :: 0 <= i < |s| ==> NameChar(s[i]))
    && (forall i :: 0 <= i < |s| - 1 ==> !(s[i] == ' ' && s[i + 1] == '-'))
    && (exists i :: 0 <= i < |s| && s[i] != ' ')
  }

  function Intended(r: Request): seq<string>
    requires r.width >= 0 && r.height >= 0
  {
    ["-steam", "-game", "valve", "-gl", "-w", Decimal.Print(r.width), "-h", Decimal.Print(r.height),
     if r.windowed then "-windowed" else "-full", "+name", r.playerName, "+connect", r.endpoint]
  }

  predicate NeedsQuotes(s: string) { exists i :: 0 <= i < |s| && (Blank(s[i]) || s[i] == QUOTE) }

  function Piece(argument: string): string { if NeedsQuotes(argument) then Quoted(argument) else argument }

  /** A space and the piece of each argument. */
  function Tail(arguments: seq<string>): string {
    if arguments == [] then "" else " " + Piece(arguments[0]) + Tail(arguments[1..])
  }

  function CommandLine(executable: string, arguments: seq<string>): string {
    Quoted(executable) + Tail(arguments)
  }

  function Refusal(r: Request, i: Installation, p: Processes): Option<string> {
    if i.error != "" || i.executable == "" then
      Some(if i.error == "" then "original_game_not_found" else i.error)
    else if !SafePath(i.root) || !SafePath(i.executable) || !i.parentMatches
         || !EqualIgnoringCase(FileName(i.executable), "hl.exe") then Some("invalid_original_executable")
    else if !Endpoint.ValidEndpoint(r.endpoint) then Some("invalid_endpoint")
    else if !ValidName(r.playerName) then Some("invalid_player_name")
    else if r.width < 640 || r.width > 7680 || r.height < 480 || r.height > 4320 then Some("invalid_video_dimensions")
    else if r.displayIndex != 0 then Some("stock_display_selection_unsupported")
    else if !p.complete then Some(if p.error == "" then "process_inventory_incomplete" else p.error)
    else if p.halfLifeRunning then Some("original_half_life_already_running_close_first")
    else if !p.steamRunning then Some("steam_not_running")
    else None
  }

  function MakePlan(r: Request, i: Installation, p: Processes): Plan {
    var refusal := Refusal(r, i, p);
    if refusal.Some? then Refused(refusal.value)
    else
      var arguments := Intended(r);
      var line := CommandLine(i.executable, arguments);
      if |line| >= 32767 then Refused("original_command_line_too_long")
      else Accepted(i.executable, i.root, arguments, line)
  }

  // ---- reading the line back ----

  /** One token of the raw command line: quotes group and vanish, spaces outside them separate. */
  function RawToken(s: string, inside: bool): (r: Split)
    ensures |r.rest| <= |s|
  {
    if s == "" then Split("", "")
    else if s[0] == QUOTE then RawToken(s[1..], !inside)
    else if s[0] == ' ' && !inside then Split("", s)
    else Before([s[0]], RawToken(s[1..], inside))
  }

  function RawTokens(s: string): seq<string>
    decreases |s|
  {
    if s == "" then []
    else if s[0] == ' ' then RawTokens(s[1..])
    else
      var r := RawToken(s, false);
      assert |r.rest| < |s| by { RawAdvances(s); }
      [r.arg] + RawTokens(r.rest)
  }

  lemma RawAdvances(s: string)
    requires s != "" && s[0] != ' '
    ensures |RawToken(s, false).rest| < |s|
  {
  }

  /** The words between spaces, quotes or no quotes. */
  function BareWords(s: string): seq<string>
    decreases |s|
  {
    if s == "" then []
    else if s[0] == ' ' then BareWords(s[1..])
    else
      var end := IndexOf(s, ' ');
      [s[..end]] + BareWords(s[end..])
  }

  /** The words that the game would take for options. */
  predicate LooksLikeOption(w: string) { w != "" && (w[0] == '-' || w[0] == '+') }

  function Options(words: seq<string>): seq<string> {
    if words == [] then [] else (if LooksLikeOption(words[0]) then [words[0]] else []) + Options(words[1..])
  }

  /** What every intended argument is: visible, and free of quotes and backslashes. */
  predicate Simple(a: string) {
    a != "" && forall i :: 0 <= i < |a| ==> a[i] != QUOTE && a[i] != BACKSLASH && a[i] != '\t'
  }

  predicate AllSimple(arguments: seq<string>) { forall a <- arguments :: Simple(a) }

  /** The next argument starts here, or nothing does. */
  predicate AtSpace(t: string) { t == "" || t[0] == ' ' }

  lemma {:induction false} TailWithoutQuotes(v: string, n: nat)
    requires forall i :: 0 <= i < |v| ==> v[i] != QUOTE
    requires if v == "" then n == 0 else v[|v| - 1] != BACKSLASH
    ensures QuotedTail(v, n) == Slashes(n) + v + [QUOTE]
    decreases |v|
  {
    if v != "" {
      SlashesMove(v, n);
      if v[0] == BACKSLASH {
        TailWithoutQuotes(v[1..], n + 1);
        assert Slashes(n + 1) + v[1..] + [QUOTE] == Slashes(n) + v + [QUOTE];
      } else {
        if |v| > 1 { assert v[1..][|v| - 2] == v[|v| - 1]; }
        TailWithoutQuotes(v[1..], 0);
        assert Slashes(n) + [v[0]] + (Slashes(0) + v[1..] + [QUOTE]) == Slashes(n) + v + [QUOTE];
      }
    }
  }

  /** Without a quote or a last backslash, quoting only puts quotes around a text. */
  lemma QuotedInQuotes(v: string)
    requires v != "" && (forall i :: 0 <= i < |v| ==> v[i] != QUOTE) && v[|v| - 1] != BACKSLASH
    ensures Quoted(v) == [QUOTE] + v + [QUOTE]
  {
    TailWithoutQuotes(v, 0);
    assert [QUOTE] + (Slashes(0) + v + [QUOTE]) == [QUOTE] + v + [QUOTE];
  }

  lemma SimpleInQuotes(v: string)
    requires Simple(v)
    ensures Quoted(v) == [QUOTE] + v + [QUOTE]
  {
    QuotedInQuotes(v);
  }

  // ---- the tokens of the raw line ----

  lemma {:induction false} RawBare(v: string, t: string)
    requires (forall i :: 0 <= i < |v| ==> v[i] != QUOTE && v[i] != ' ') && AtSpace(t)
    ensures RawToken(v + t, false) == Split(v, t)
  {
    if v == "" {
      assert v + t == t;
    } else {
      assert (v + t)[0] == v[0] && (v + t)[1..] == v[1..] + t;
      RawBare(v[1..], t);
      assert [v[0]] + v[1..] == v;
    }
  }

  lemma {:induction false} RawInside(v: string, t: string)
    requires (forall i :: 0 <= i < |v| ==> v[i] != QUOTE) && AtSpace(t)
    ensures RawToken(v + [QUOTE] + t, true) == Split(v, t)
  {
    var s := v + [QUOTE] + t;
    if v == "" {
      assert s[0] == QUOTE && s[1..] == t;
    } else {
      assert s[0] == v[0] && s[1..] == v[1..] + [QUOTE] + t;
      RawInside(v[1..], t);
      assert [v[0]] + v[1..] == v;
    }
  }

  lemma RawQuoted(v: string, t: string)
    requires v != "" && (forall i :: 0 <= i < |v| ==> v[i] != QUOTE) && v[|v| - 1] != BACKSLASH && AtSpace(t)
    ensures RawToken(Quoted(v) + t, false) == Split(v, t)
  {
    QuotedInQuotes(v);
    var s := Quoted(v) + t;
    assert s[0] == QUOTE && s[1..] == v + [QUOTE] + t;
    RawInside(v, t);
  }

  lemma RawPiece(v: string, t: string)
    requires Simple(v) && AtSpace(t)
    ensures RawToken(Piece(v) + t, false) == Split(v, t)
  {
    hide RawToken, Quoted;
    if NeedsQuotes(v) {
      RawQuoted(v, t);
    } else {
      RawBare(v, t);
    }
  }

  lemma PieceStarts(v: string)
    requires Simple(v)
    ensures Piece(v) != "" && Piece(v)[0] != ' '
  {
    if NeedsQuotes(v) { SimpleInQuotes(v); }
  }

  lemma RawStep(v: string, t: string)
    requires Simple(v) && AtSpace(t)
    ensures RawTokens(Piece(v) + t) == [v] + RawTokens(t)
  {
    RawPiece(v, t);
    PieceStarts(v);
    hide RawToken, Piece, Simple;
    assert (Piece(v) + t)[0] == Piece(v)[0];
  }

  lemma {:induction false} RawTailReads(arguments: seq<string>)
    requires AllSimple(arguments)
    ensures RawTokens(Tail(arguments)) == arguments && AtSpace(Tail(arguments))
  {
    hide RawToken, Piece, Simple, AllSimple;
    if arguments != [] {
      TailStep(arguments);
      hide Tail;
      RawTailReads(arguments[1..]);
      RawStep(arguments[0], Tail(arguments[1..]));
      assert arguments == [arguments[0]] + arguments[1..];
    }
  }

  /** Splitting the raw line at spaces outside quotes gives the executable and the arguments. */
  lemma RawLineReads(executable: string, arguments: seq<string>)
    requires executable != "" && (forall i :: 0 <= i < |executable| ==> executable[i] != QUOTE)
    requires executable[|executable| - 1] != BACKSLASH && AllSimple(arguments)
    ensures RawTokens(CommandLine(executable, arguments)) == [executable] + arguments
  {
    RawTailReads(arguments);
    RawQuoted(executable, Tail(arguments));
    hide RawToken, Tail, QuotedTail;
    assert CommandLine(executable, arguments)[0] == QUOTE;
  }

  // ---- the arguments by the Windows rules ----

  lemma {:induction false} WindowsBare(v: string, t: string, doubled: bool)
    requires forall i :: 0 <= i < |v| ==> v[i] != QUOTE && v[i] != BACKSLASH && !Blank(v[i])
    requires AtSpace(t)
    ensures Argument(v + t, false, 0, doubled) == Split(v, t)
  {
    assert Slashes(0) == "";
    if v == "" {
      assert v + t == t;
    } else {
      assert (v + t)[0] == v[0] && (v + t)[1..] == v[1..] + t;
      WindowsBare(v[1..], t, doubled);
      assert Slashes(0) + [v[0]] + v[1..] == v;
    }
  }

  lemma WindowsPiece(v: string, t: string, doubled: bool)
    requires Simple(v) && AtSpace(t)
    ensures Argument(Piece(v) + t, false, 0, doubled) == Split(v, t)
  {
    hide Argument, Quoted;
    if NeedsQuotes(v) { QuotedSplits(v, t, doubled); } else { WindowsBare(v, t, doubled); }
  }

  lemma TailStep(arguments: seq<string>)
    requires arguments != []
    ensures Tail(arguments) != "" && Tail(arguments)[0] == ' '
    ensures Tail(arguments)[1..] == Piece(arguments[0]) + Tail(arguments[1..])
    ensures AllSimple(arguments) ==> Simple(arguments[0]) && AllSimple(arguments[1..])
  {
    hide Piece, Simple;
    SimpleStep(arguments);
    hide AllSimple;
    var a, t := Piece(arguments[0]), Tail(arguments[1..]);
    assert " " + a + t == [' '] + (a + t);
  }

  lemma SimpleStep(arguments: seq<string>)
    requires arguments != []
    ensures AllSimple(arguments) ==> Simple(arguments[0]) && AllSimple(arguments[1..])
  {
    hide Simple;
    assert arguments[0] in arguments && forall a <- arguments[1..] :: a in arguments;
  }

  lemma {:induction false} WindowsTailReads(arguments: seq<string>, doubled: bool)
    requires AllSimple(arguments)
    ensures Arguments(Tail(arguments), doubled) == arguments && AtSpace(Tail(arguments))
  {
    hide Argument, Simple, Piece, AllSimple;
    if arguments != [] {
      var v, t := arguments[0], Tail(arguments[1..]);
      TailStep(arguments);
      hide Tail;
      WindowsTailReads(arguments[1..], doubled);
      WindowsPiece(v, t, doubled);
      WindowsStep(v, t, doubled);
      assert arguments == [v] + arguments[1..];
    }
  }

  lemma WindowsStep(v: string, t: string, doubled: bool)
    requires Simple(v) && AtSpace(t) && Argument(Piece(v) + t, false, 0, doubled) == Split(v, t)
    ensures Arguments(Piece(v) + t, doubled) == [v] + Arguments(t, doubled)
  {
    hide Argument, Quoted;
    assert Piece(v)[0] != ' ' && !Blank(Piece(v)[0]) by {
      if NeedsQuotes(v) { SimpleInQuotes(v); }
    }
    assert (Piece(v) + t)[0] == Piece(v)[0];
  }

  lemma WindowsLineReads(executable: string, arguments: seq<string>, doubled: bool)
    requires AllSimple(arguments)
    ensures Arguments(CommandLine(executable, arguments), doubled) == [executable] + arguments
  {
    WindowsTailReads(arguments, doubled);
    QuotedSplits(executable, Tail(arguments), doubled);
    hide Argument, Tail, QuotedTail;
    assert CommandLine(executable, arguments)[0] == QUOTE;
  }

  // ---- the options that the game sees ----

  /** No word in `s` looks like an option. */
  predicate Quiet(s: string) {
    forall i :: 0 <= i < |s| && (s[i] == '-' || s[i] == '+') ==> i > 0 && s[i - 1] != ' '
  }

  function OptionsIn(s: string): seq<string> { Options(BareWords(s)) }

  lemma {:induction false} SpaceEndsWord(w: string, t: string)
    requires (forall i :: 0 <= i < |w| ==> w[i] != ' ') && AtSpace(t)
    ensures IndexOf(w + t, ' ') == |w|
  {
    if w == "" {
      assert w + t == t;
    } else {
      assert (w + t)[0] == w[0] && (w + t)[1..] == w[1..] + t;
      SpaceEndsWord(w[1..], t);
    }
  }

  lemma WordRead(w: string, t: string)
    requires w != "" && (forall i :: 0 <= i < |w| ==> w[i] != ' ') && AtSpace(t)
    ensures OptionsIn(w + t) == (if LooksLikeOption(w) then [w] else []) + OptionsIn(t)
  {
    SpaceEndsWord(w, t);
    hide IndexOf;
    var s := w + t;
    assert s[0] == w[0] && s[..|w|] == w && s[|w|..] == t;
    assert BareWords(s) == [w] + BareWords(t);
    assert ([w] + BareWords(t))[1..] == BareWords(t);
  }

  lemma {:induction false} QuietIsSilent(q: string, t: string)
    requires Quiet(q) && AtSpace(t)
    ensures OptionsIn(q + t) == OptionsIn(t)
    decreases |q|
  {
    if q == "" {
      assert q + t == t;
    } else if q[0] == ' ' {
      assert (q + t)[0] == q[0] && (q + t)[1..] == q[1..] + t;
      QuietFrom(q, 1);
      QuietIsSilent(q[1..], t);
    } else {
      var end := IndexOf(q, ' ');
      assert end > 0;
      var w, rest := q[..end], q[end..];
      assert forall i :: 0 <= i < |w| ==> w[i] != ' ' by { forall i | 0 <= i < |w| ensures w[i] != ' ' { assert w[i] in w; } }
      QuietFrom(q, end);
      hide IndexOf, BareWords, Options;
      assert q + t == w + (rest + t) && AtSpace(rest + t);
      WordRead(w, rest + t);
      assert w[0] == q[0];
      QuietIsSilent(rest, t);
      assert OptionsIn(q + t) == [] + OptionsIn(rest + t);
    }
  }

  lemma QuietFrom(q: string, n: nat)
    requires Quiet(q) && n <= |q| && (n == |q| || q[n] == ' ' || (n > 0 && q[n - 1] == ' '))
    ensures Quiet(q[n..])
  {
  }

  lemma NameIsQuiet(name: string)
    requires ValidName(name)
    ensures Simple(name) && Quiet(name) && Quiet([QUOTE] + name + [QUOTE])
  {
    var q := [QUOTE] + name + [QUOTE];
    forall i | 0 <= i < |q| && (q[i] == '-' || q[i] == '+')
      ensures i > 0 && q[i - 1] != ' '
    {
      assert 0 < i <= |name| && q[i] == name[i - 1];
      assert NameChar(name[i - 1]);
      if i > 1 { assert q[i - 1] == name[i - 2]; }
    }
    forall i | 0 <= i < |name| && (name[i] == '-' || name[i] == '+')
      ensures i > 0 && name[i - 1] != ' '
    {
      assert NameChar(name[i]) && name[i] == '-';
      var k := i - 1;
      assert i > 0;
      assert name[k + 1] == '-' && name[k] != ' ';
    }
  }

  /** An argument without spaces contributes itself or nothing; a name contributes nothing. */
  lemma PieceOptions(a: string, t: string)
    requires AtSpace(t) && Simple(a) && (NeedsQuotes(a) ==> ValidName(a))
    ensures OptionsIn(Piece(a) + t) == (if LooksLikeOption(a) then [a] else []) + OptionsIn(t)
  {
    hide BareWords, Options;
    if NeedsQuotes(a) {
      NameIsQuiet(a);
      SimpleInQuotes(a);
      QuietIsSilent([QUOTE] + a + [QUOTE], t);
      assert NameChar(a[0]);
      assert [] + OptionsIn(t) == OptionsIn(t);
    } else {
      WordRead(a, t);
    }
  }

  lemma {:induction false} OptionsOfTail(arguments: seq<string>)
    requires AllSimple(arguments) && forall a <- arguments :: NeedsQuotes(a) ==> ValidName(a)
    ensures OptionsIn(Tail(arguments)) == Options(arguments) && AtSpace(Tail(arguments))
  {
    hide Simple, Piece, NeedsQuotes, ValidName, BareWords;
    if arguments == [] {
      NothingToSee();
    } else {
      var t := Tail(arguments[1..]);
      TailStep(arguments);
      assert arguments[0] in arguments && forall a <- arguments[1..] :: a in arguments;
      OptionsOfTail(arguments[1..]);
      PieceOptions(arguments[0], t);
      SkipSpace(Tail(arguments));
    }
  }

  lemma NothingToSee()
    ensures OptionsIn("") == []
  {
  }

  lemma SkipSpace(s: string)
    requires s != "" && s[0] == ' '
    ensures OptionsIn(s) == OptionsIn(s[1..])
  {
  }

  function IntendedOptions(windowed: bool): seq<string> {
    ["-steam", "-game", "-gl", "-w", "-h", if windowed then "-windowed" else "-full", "+name", "+connect"]
  }

  lemma NumeralIsSimple(n: nat)
    ensures Simple(Decimal.Print(n)) && !NeedsQuotes(Decimal.Print(n)) && !LooksLikeOption(Decimal.Print(n))
  {
    var s := Decimal.Print(n);
    assert forall i :: 0 <= i < |s| ==> Decimal.Digit(s[i]);
  }

  /** Bare arguments need no quotes. */
  predicate Bare(a: string) { Simple(a) && !NeedsQuotes(a) }

  lemma SwitchesAreBare()
    ensures Bare("-steam") && Bare("-game") && Bare("valve") && Bare("-gl") && Bare("-w") && Bare("-h")
  {
  }

  lemma MoreSwitchesAreBare()
    ensures Bare("-windowed") && Bare("-full") && Bare("+name") && Bare("+connect")
  {
  }

  predicate Switch(a: string) { Bare(a) && LooksLikeOption(a) }
  predicate Plain(a: string) { Bare(a) && !LooksLikeOption(a) }

  function OptionOf(a: string): seq<string> { if LooksLikeOption(a) then [a] else [] }

  lemma OptionsOfThree(a: string, b: string, c: string, rest: seq<string>)
    ensures Options([a, b, c] + rest) == OptionOf(a) + OptionOf(b) + OptionOf(c) + Options(rest)
  {
    hide LooksLikeOption;
    var s := [a, b, c] + rest;
    assert s[1..] == [b, c] + rest && s[1..][1..] == [c] + rest && s[1..][1..][1..] == rest;
    assert Options([c] + rest) == OptionOf(c) + Options(rest);
    assert Options([b, c] + rest) == OptionOf(b) + Options([c] + rest);
  }

  /** The shape of the intended arguments: switches, plain values, and a name. */
  predicate Shaped(all: seq<string>) {
    && |all| == 13
    && Switch(all[0]) && Switch(all[1]) && Plain(all[2]) && Switch(all[3])
    && Switch(all[4]) && Plain(all[5]) && Switch(all[6]) && Plain(all[7])
    && Switch(all[8]) && Switch(all[9]) && Simple(all[10]) && !LooksLikeOption(all[10])
    && Switch(all[11]) && Plain(all[12])
  }

  lemma ThirteenAreShaped(a: string, b: string, c: string, d: string, e: string, f: string, g: string, h: string,
                       i: string, j: string, name: string, k: string, l: string)
    requires Switch(a) && Switch(b) && Plain(c) && Switch(d) && Switch(e) && Plain(f) && Switch(g) && Plain(h)
    requires Switch(i) && Switch(j) && Simple(name) && !LooksLikeOption(name) && Switch(k) && Plain(l)
    ensures Shaped([a, b, c, d, e, f, g, h, i, j, name, k, l])
  {
    hide Simple, NeedsQuotes, LooksLikeOption;
  }

  lemma ThirteenAreShort(a: string, b: string, c: string, d: string, e: string, f: string, g: string, h: string,
                       i: string, j: string, name: string, k: string, l: string)
    requires |a| <= 31 && |b| <= 31 && |c| <= 31 && |d| <= 31 && |e| <= 31 && |f| <= 31 && |g| <= 31 && |h| <= 31
    requires |i| <= 31 && |j| <= 31 && |name| <= 31 && |k| <= 31 && |l| <= 31
    ensures forall x <- [a, b, c, d, e, f, g, h, i, j, name, k, l] :: |x| <= 31
  {
  }

  lemma ShapedAreSimple(all: seq<string>)
    requires Shaped(all)
    ensures AllSimple(all) && forall x <- all :: NeedsQuotes(x) ==> x == all[10]
  {
    hide Simple, NeedsQuotes, LooksLikeOption;
    assert forall n :: 0 <= n < 13 ==> Simple(all[n]) && (NeedsQuotes(all[n]) ==> n == 10);
  }

  lemma OptionsOfShaped(all: seq<string>)
    requires Shaped(all)
    ensures Options(all) == [all[0], all[1], all[3], all[4], all[6], all[8], all[9], all[11]]
  {
    hide Simple, NeedsQuotes, LooksLikeOption, Options;
    assert Options([]) == [] && Options([all[12]]) == [] by { OptionsOfOne(all[12]); }
    var from9, from6, from3 := all[9..], all[6..], all[3..];
    assert from9 == [all[9], all[10], all[11]] + [all[12]];
    assert from6 == [all[6], all[7], all[8]] + from9;
    assert from3 == [all[3], all[4], all[5]] + from6;
    assert all == [all[0], all[1], all[2]] + from3;
    OptionsOfThree(all[9], all[10], all[11], [all[12]]);
    OptionsOfThree(all[6], all[7], all[8], from9);
    OptionsOfThree(all[3], all[4], all[5], from6);
    OptionsOfThree(all[0], all[1], all[2], from3);
  }

  lemma OptionsOfOne(a: string)
    ensures Options([]) == [] && Options([a]) == OptionOf(a)
  {
  }

  /** What the checks of the request guarantee of its arguments. */
  lemma IntendedShape(r: Request)
    requires ValidName(r.playerName) && Endpoint.ValidEndpoint(r.endpoint) && r.width >= 0 && r.height >= 0
    ensures AllSimple(Intended(r)) && (forall a <- Intended(r) :: NeedsQuotes(a) ==> a == r.playerName)
    ensures Options(Intended(r)) == IntendedOptions(r.windowed)
  {
    NameIsQuiet(r.playerName);
    assert NameChar(r.playerName[0]);
    EndpointIsPlain(r.endpoint);
    NumeralIsSimple(r.width);
    NumeralIsSimple(r.height);
    SwitchesAreBare();
    MoreSwitchesAreBare();
    hide Endpoint.ValidEndpoint, ValidName, Decimal.Print, Quiet, Simple, NeedsQuotes, Options;
    ThirteenAreShaped("-steam", "-game", "valve", "-gl", "-w", Decimal.Print(r.width), "-h", Decimal.Print(r.height),
                      if r.windowed then "-windowed" else "-full", "+name", r.playerName, "+connect", r.endpoint);
    hide Shaped, Switch, Plain;
    var all := Intended(r);
    ShapedAreSimple(all);
    OptionsOfShaped(all);
  }

  lemma EndpointIsPlain(endpoint: string)
    requires Endpoint.ValidEndpoint(endpoint)
    ensures Plain(endpoint)
  {
    hide Endpoint.ValidEndpoint;
    Endpoint.ValidIsBare(endpoint);
    assert forall k :: 0 <= k < |endpoint| ==> endpoint[k] != QUOTE && endpoint[k] != BACKSLASH && !Blank(endpoint[k]);
  }

  // ---- what an accepted plan is ----

  lemma {:induction false} FileNameEnds(s: string)
    requires FileName(s) != ""
    ensures s != "" && !Separates(s[|s| - 1])
  {
  }

  lemma ExecutableFits(i: Installation)
    requires SafePath(i.executable) && EqualIgnoringCase(FileName(i.executable), "hl.exe")
    ensures var e := i.executable;
            && e != "" && e[|e| - 1] != BACKSLASH && (forall k :: 0 <= k < |e| ==> e[k] != QUOTE)
            && |Quoted(e)| == |e| + 2
  {
    var e := i.executable;
    FileNameEnds(e);
    assert forall k :: 0 <= k < |e| ==> !Forbidden(e[k], k);
    QuotedInQuotes(e);
  }

  lemma PieceLength(a: string)
    requires Simple(a)
    ensures |Piece(a)| <= |a| + 2
  {
    if NeedsQuotes(a) { SimpleInQuotes(a); }
  }

  lemma {:induction false} TailLength(arguments: seq<string>)
    requires AllSimple(arguments) && forall a <- arguments :: |a| <= 31
    ensures |Tail(arguments)| <= 34 * |arguments|
  {
    hide Simple, Piece;
    if arguments != [] {
      TailStep(arguments);
      PieceLength(arguments[0]);
      assert forall a <- arguments[1..] :: a in arguments;
      TailLength(arguments[1..]);
    }
  }

  /** The last refusal cannot happen: every line is far below the limit. */
  lemma LineIsNeverTooLong(r: Request, i: Installation, p: Processes)
    requires Refusal(r, i, p).None?
    ensures |CommandLine(i.executable, Intended(r))| <= 4540
    ensures MakePlan(r, i, p).Accepted?
  {
    IntendedShape(r);
    ExecutableFits(i);
    Decimal.PrintLength(r.width, 4);
    Decimal.PrintLength(r.height, 4);
    hide ValidName, Endpoint.ValidEndpoint, Tail, Quoted, AllSimple, Decimal.Print, Decimal.Power, SafePath;
    ThirteenAreShort("-steam", "-game", "valve", "-gl", "-w", Decimal.Print(r.width), "-h", Decimal.Print(r.height),
                     if r.windowed then "-windowed" else "-full", "+name", r.playerName, "+connect", r.endpoint);
    TailLength(Intended(r));
  }

  lemma NameIsPlain(name: string)
    requires ValidName(name)
    ensures QUOTE !in name && '\\' !in name && '+' !in name
  {
    assert forall c :: c in name ==> NameChar(c);
  }

  /** What an accepted plan is made of, and what the checks guarantee of it. */
  lemma AcceptedShape(r: Request, i: Installation, p: Processes)
    requires MakePlan(r, i, p).Accepted?
    ensures var plan := MakePlan(r, i, p);
            && plan.commandLine == Quoted(i.executable) + Tail(plan.arguments)
            && r.width >= 0 && r.height >= 0 && plan.arguments == Intended(r)
            && ValidName(r.playerName) && Endpoint.ValidEndpoint(r.endpoint)
            && SafePath(i.executable) && EqualIgnoringCase(FileName(i.executable), "hl.exe")
  {
    hide Intended, Tail, Quoted, ValidName, Endpoint.ValidEndpoint, SafePath, EqualIgnoringCase, FileName;
  }

  lemma LineReads(i: Installation, arguments: seq<string>, doubled: bool)
    requires SafePath(i.executable) && EqualIgnoringCase(FileName(i.executable), "hl.exe") && AllSimple(arguments)
    ensures var line := CommandLine(i.executable, arguments);
            RawTokens(line) == [i.executable] + arguments && Arguments(line, doubled) == [i.executable] + arguments
  {
    ExecutableFits(i);
    hide SafePath, EqualIgnoringCase, FileName, AllSimple, Arguments, RawTokens, CommandLine, Quoted;
    RawLineReads(i.executable, arguments);
    WindowsLineReads(i.executable, arguments, doubled);
  }

  lemma IntendedWords(r: Request)
    requires ValidName(r.playerName) && Endpoint.ValidEndpoint(r.endpoint) && r.width >= 0 && r.height >= 0
    ensures AllSimple(Intended(r)) && (forall a <- Intended(r) :: NeedsQuotes(a) ==> a == r.playerName)
    ensures OptionsIn(Tail(Intended(r))) == IntendedOptions(r.windowed)
  {
    hide Intended, IntendedOptions, AllSimple, NeedsQuotes, ValidName, Endpoint.ValidEndpoint, Tail, OptionsIn, Options;
    IntendedShape(r);
    OptionsOfTail(Intended(r));
  }

  /** However the line of an accepted plan is split - raw at spaces outside quotes, or by the Windows
      rules - it gives the executable and exactly the arguments. Only the player name can be quoted,
      it holds no quote, backslash or plus itself, and the only words of the tail that look like
      options are the intended ones. */
  lemma CommandLineIsFaithful(r: Request, i: Installation, p: Processes, doubled: bool)
    requires MakePlan(r, i, p).Accepted?
    ensures var plan := MakePlan(r, i, p);
            && plan.commandLine == Quoted(i.executable) + Tail(plan.arguments)
            && RawTokens(plan.commandLine) == [i.executable] + plan.arguments
            && Arguments(plan.commandLine, doubled) == [i.executable] + plan.arguments
            && (forall a <- plan.arguments :: NeedsQuotes(a) ==> a == r.playerName)
            && QUOTE !in r.playerName && '\\' !in r.playerName && '+' !in r.playerName
            && OptionsIn(Tail(plan.arguments)) == IntendedOptions(r.windowed)
  {
    AcceptedShape(r, i, p);
    hide MakePlan, Intended, IntendedOptions, AllSimple, NeedsQuotes, Arguments, RawTokens, Tail, Quoted, OptionsIn,
         Endpoint.ValidEndpoint, ValidName, SafePath, EqualIgnoringCase, FileName;
    NameIsPlain(r.playerName);
    IntendedWords(r);
    LineReads(i, Intended(r), doubled);
  }

  // ---- what the command line says of the request ----

  /** The token is there, and what follows it is always that value. */
  ghost predicate FollowedBy(t: seq<string>, option: string, value: string) {
    && option in t
    && forall i :: 0 <= i < |t| && t[i] == option ==> i + 1 < |t| && t[i + 1] == value
  }

  /** The same for the numeral of a number, which has no leading zero. */
  ghost predicate FollowedByNumber(t: seq<string>, option: string, value: int) {
    exists s :: Decimal.Canonical(s) && Decimal.Value(s) == value && FollowedBy(t, option, s)
  }

  /** Tokens that cannot be taken for an option. */
  predicate NoOption(s: string) { s != "" && s[0] != '-' && s[0] != '+' }

  /** The line asks for exactly the size, the mode, the name and the server of the request. */
  ghost predicate Asks(t: seq<string>, r: Request) {
    && FollowedBy(t, "-game", "valve")
    && FollowedByNumber(t, "-w", r.width) && FollowedByNumber(t, "-h", r.height)
    && FollowedBy(t, "+name", r.playerName) && FollowedBy(t, "+connect", r.endpoint)
    && ("-windowed" in t <==> r.windowed) && ("-full" in t <==> !r.windowed)
    && "-steam" in t && "-gl" in t
  }

  /** Thirteen words of which five are values. */
  ghost predicate Words(a: seq<string>, w: string, h: string, name: string, endpoint: string, windowed: bool) {
    && |a| == 13
    && a[0] == "-steam" && a[1] == "-game" && a[2] == "valve" && a[3] == "-gl" && a[4] == "-w" && a[5] == w
    && a[6] == "-h" && a[7] == h && a[8] == (if windowed then "-windowed" else "-full")
    && a[9] == "+name" && a[10] == name && a[11] == "+connect" && a[12] == endpoint
  }

  /** What tells options apart. */
  predicate Tagged(s: string, a: char, b: char, length: nat) { |s| == length > 1 && s[0] == a && s[1] == b }

  ghost predicate TaggedWords(t: seq<string>, windowed: bool) {
    && |t| == 14
    && NoOption(t[0]) && NoOption(t[3]) && NoOption(t[6]) && NoOption(t[8]) && NoOption(t[11]) && NoOption(t[13])
    && Tagged(t[1], '-', 's', 6) && Tagged(t[2], '-', 'g', 5) && Tagged(t[4], '-', 'g', 3)
    && Tagged(t[5], '-', 'w', 2) && Tagged(t[7], '-', 'h', 2)
    && (if windowed then Tagged(t[9], '-', 'w', 9) else Tagged(t[9], '-', 'f', 5))
    && Tagged(t[10], '+', 'n', 5) && Tagged(t[12], '+', 'c', 8)
  }

  lemma WordsAreTagged(first: string, a: seq<string>, w: string, h: string, name: string, endpoint: string, windowed: bool)
    requires Words(a, w, h, name, endpoint, windowed)
    requires NoOption(first) && NoOption(w) && NoOption(h) && NoOption(name) && NoOption(endpoint)
    ensures TaggedWords([first] + a, windowed)
  {
    var t := [first] + a;
    assert NoOption(a[2]);
    assert Tagged(a[0], '-', 's', 6) && Tagged(a[1], '-', 'g', 5) && Tagged(a[3], '-', 'g', 3);
    assert Tagged(a[4], '-', 'w', 2) && Tagged(a[6], '-', 'h', 2);
    assert if windowed then Tagged(a[8], '-', 'w', 9) else Tagged(a[8], '-', 'f', 5);
    assert Tagged(a[9], '+', 'n', 5) && Tagged(a[11], '+', 'c', 8);
    hide Words, Tagged, NoOption;
    Behind(first, a);
  }

  lemma Behind(first: string, rest: seq<string>)
    ensures |[first] + rest| == |rest| + 1 && ([first] + rest)[0] == first
    ensures forall k :: 0 < k <= |rest| ==> ([first] + rest)[k] == rest[k - 1]
  {
  }

  lemma OptionAt(t: seq<string>, windowed: bool, k: nat)
    requires TaggedWords(t, windowed) && k in [2, 5, 7, 10, 12]
    ensures FollowedBy(t, t[k], t[k + 1])
  {
    forall i | 0 <= i < |t| && t[i] == t[k] ensures i == k {
    }
  }

  lemma ModeOf(t: seq<string>, windowed: bool, other: string)
    requires TaggedWords(t, windowed)
    requires if windowed then Tagged(other, '-', 'f', 5) else Tagged(other, '-', 'w', 9)
    ensures other !in t
  {
  }

  lemma WordsAsk(first: string, a: seq<string>, w: string, h: string, name: string, endpoint: string, windowed: bool)
    requires Words(a, w, h, name, endpoint, windowed)
    requires NoOption(first) && NoOption(w) && NoOption(h) && NoOption(name) && NoOption(endpoint)
    ensures var t := [first] + a;
            && FollowedBy(t, "-game", "valve") && FollowedBy(t, "-w", w) && FollowedBy(t, "-h", h)
            && FollowedBy(t, "+name", name) && FollowedBy(t, "+connect", endpoint)
            && ("-windowed" in t <==> windowed) && ("-full" in t <==> !windowed)
            && "-steam" in t && "-gl" in t
  {
    var t := [first] + a;
    WordsAreTagged(first, a, w, h, name, endpoint, windowed);
    ModeOf(t, windowed, if windowed then "-full" else "-windowed");
    Behind(first, a);
    assert t[1] in t && t[4] in t && t[9] in t;
    hide TaggedWords, FollowedBy, NoOption;
    OptionAt(t, windowed, 2);
    OptionAt(t, windowed, 5);
    OptionAt(t, windowed, 7);
    OptionAt(t, windowed, 10);
    OptionAt(t, windowed, 12);
  }

  lemma NumeralIsNoOption(n: nat)
    ensures NoOption(Decimal.Print(n))
  {
    assert Decimal.Digit(Decimal.Print(n)[0]);
  }

  lemma IntendedAt(r: Request)
    requires r.width >= 0 && r.height >= 0
    ensures Words(Intended(r), Decimal.Print(r.width), Decimal.Print(r.height), r.playerName, r.endpoint, r.windowed)
  {
    hide Decimal.Print;
  }

  lemma IntendedAsks(r: Request, i: Installation)
    requires ValidName(r.playerName) && Endpoint.ValidEndpoint(r.endpoint) && SafePath(i.executable)
    requires r.width >= 0 && r.height >= 0
    ensures Asks([i.executable] + Intended(r), r)
  {
    ExecutableIsNoOption(i);
    ValuesAreNoOptions(r);
    IntendedAt(r);
    Decimal.PrintIsCanonical(r.width);
    Decimal.PrintIsCanonical(r.height);
    hide ValidName, Endpoint.ValidEndpoint, SafePath, Decimal.Print, NoOption, Intended, Words, FollowedBy,
         Decimal.Canonical, Decimal.Value;
    WordsAsk(i.executable, Intended(r), Decimal.Print(r.width), Decimal.Print(r.height), r.playerName, r.endpoint, r.windowed);
  }

  lemma IntendedSize(r: Request)
    requires r.width >= 0 && r.height >= 0
    ensures |Intended(r)| == 13
  {
  }

  /** However the line of an accepted plan is split, its words ask for what the request asks for. */
  lemma LineAsks(r: Request, i: Installation, p: Processes, doubled: bool)
    requires MakePlan(r, i, p).Accepted?
    ensures var plan := MakePlan(r, i, p);
            && plan.executable == i.executable && plan.workingDirectory == i.root
            && Asks(RawTokens(plan.commandLine), r) && Asks(Arguments(plan.commandLine, doubled), r)
            && |RawTokens(plan.commandLine)| == 14 && RawTokens(plan.commandLine)[0] == i.executable
  {
    assert MakePlan(r, i, p).executable == i.executable && MakePlan(r, i, p).workingDirectory == i.root by {
      hide Refusal, CommandLine, Intended;
    }
    hide RawTokens, Arguments, MakePlan, Intended, Asks, ValidName, Endpoint.ValidEndpoint, SafePath, Tail, Quoted,
         Decimal.Print, EqualIgnoringCase, FileName, NeedsQuotes, OptionsIn, IntendedOptions;
    AcceptedShape(r, i, p);
    CommandLineIsFaithful(r, i, p, doubled);
    IntendedSize(r);
    IntendedAsks(r, i);
  }

  lemma ExecutableIsNoOption(i: Installation)
    requires SafePath(i.executable)
    ensures NoOption(i.executable)
  {
  }

  lemma NameIsNoOption(name: string)
    requires ValidName(name)
    ensures NoOption(name)
  {
    assert NameChar(name[0]);
  }

  lemma ValuesAreNoOptions(r: Request)
    requires ValidName(r.playerName) && Endpoint.ValidEndpoint(r.endpoint) && r.width >= 0 && r.height >= 0
    ensures NoOption(r.playerName) && NoOption(r.endpoint)
    ensures NoOption(Decimal.Print(r.width)) && NoOption(Decimal.Print(r.height))
  {
    hide ValidName, Endpoint.ValidEndpoint, Decimal.Print;
    NumeralIsNoOption(r.width);
    NumeralIsNoOption(r.height);
    NameIsNoOption(r.playerName);
    Endpoint.ValidIsBare(r.endpoint);
  }

  // ---- when a plan is refused ----

  datatype Check = Check(passed: bool, refusal: string)

  /** What has to be in order, first things first. */
  ghost function Checks(r: Request, i: Installation, p: Processes): seq<Check> {
    [Check(i.error == "" && i.executable != "", if i.error == "" then "original_game_not_found" else i.error),
     Check(SafePath(i.root) && SafePath(i.executable) && i.parentMatches
           && EqualIgnoringCase(FileName(i.executable), "hl.exe"), "invalid_original_executable"),
     Check(Endpoint.ValidEndpoint(r.endpoint), "invalid_endpoint"),
     Check(ValidName(r.playerName), "invalid_player_name"),
     Check(640 <= r.width <= 7680 && 480 <= r.height <= 4320, "invalid_video_dimensions"),
     Check(r.displayIndex == 0, "stock_display_selection_unsupported"),
     Check(p.complete, if p.error == "" then "process_inventory_incomplete" else p.error),
     Check(!p.halfLifeRunning, "original_half_life_already_running_close_first"),
     Check(p.steamRunning, "steam_not_running")]
  }

  ghost predicate FailsFirst(checks: seq<Check>, k: nat, error: string) {
    && k < |checks| && !checks[k].passed && error == checks[k].refusal
    && forall m :: 0 <= m < k ==> checks[m].passed
  }

  /** A plan is accepted exactly when everything is in order, and otherwise refused for the first thing
      that is not. */
  lemma RefusedForTheFirst(r: Request, i: Installation, p: Processes)
    ensures var checks, plan := Checks(r, i, p), MakePlan(r, i, p);
            && (plan.Accepted? <==> forall k :: 0 <= k < |checks| ==> checks[k].passed)
            && (plan.Refused? ==> exists k :: FailsFirst(checks, k, plan.error))
  {
    var checks := Checks(r, i, p);
    hide SafePath, ValidName, Endpoint.ValidEndpoint, EqualIgnoringCase, FileName, CommandLine, Intended, MakePlan;
    if Refusal(r, i, p).None? {
      LineIsNeverTooLong(r, i, p);
    } else {
      RefusedAs(r, i, p);
      FirstThatFails(r, i, p);
      hide Checks, Refusal;
    }
  }

  lemma FirstThatFails(r: Request, i: Installation, p: Processes)
    requires Refusal(r, i, p).Some?
    ensures exists k :: FailsFirst(Checks(r, i, p), k, Refusal(r, i, p).value)
  {
    var checks := Checks(r, i, p);
    hide SafePath, ValidName, Endpoint.ValidEndpoint, EqualIgnoringCase, FileName;
    var k := if !checks[0].passed then 0 else if !checks[1].passed then 1 else if !checks[2].passed then 2
             else if !checks[3].passed then 3 else if !checks[4].passed then 4 else if !checks[5].passed then 5
             else if !checks[6].passed then 6 else if !checks[7].passed then 7 else 8;
    assert FailsFirst(checks, k, Refusal(r, i, p).value);
  }

  lemma RefusedAs(r: Request, i: Installation, p: Processes)
    requires Refusal(r, i, p).Some?
    ensures MakePlan(r, i, p) == Refused(Refusal(r, i, p).value)
  {
  }

  // ---- the checks and the builder as they run ----

  method CheckName(s: string) returns (valid: bool)
    ensures valid <==> ValidName(s)
  {
    if s == "" || |s| > 31 || s[0] == '-' { return false; }
    var k := 0;
    while k + 1 < |s|
      invariant k < |s| && forall i :: 0 <= i < k ==> !(s[i] == ' ' && s[i + 1] == '-')
    {
      if s[k] == ' ' && s[k + 1] == '-' { return false; }
      k := k + 1;
    }
    var visible := false;
    for i := 0 to |s|
      invariant forall j :: 0 <= j < i ==> NameChar(s[j])
      invariant visible <==> exists j :: 0 <= j < i && s[j] != ' '
    {
      if !NameChar(s[i]) { return false; }
      visible := visible || s[i] != ' ';
    }
    return visible;
  }

  method CheckPath(s: string) returns (safe: bool)
    ensures safe <==> SafePath(s)
  {
    if |s| < 3 || |s| > 4096 || !Letter(s[0]) || s[1] != ':' || !Separates(s[2]) { return false; }
    for i := 0 to |s|
      invariant forall j :: 0 <= j < i ==> !Forbidden(s[j], j)
    {
      if Forbidden(s[i], i) { return false; }
    }
    var parts := Components(s);
    for i := 0 to |parts|
      invariant forall j :: 0 <= j < i ==> parts[j] != "." && parts[j] != ".."
    {
      if parts[i] == "." || parts[i] == ".." {
        assert parts[i] in parts;
        return false;
      }
    }
    assert forall part <- parts :: part != "." && part != "..";
    return true;
  }

  method CheckQuotes(argument: string) returns (needs: bool)
    ensures needs <==> NeedsQuotes(argument)
  {
    for i := 0 to |argument|
      invariant forall j :: 0 <= j < i ==> !Blank(argument[j]) && argument[j] != QUOTE
    {
      if Blank(argument[i]) || argument[i] == QUOTE { return true; }
    }
    return false;
  }

  method BuildLine(executable: string, arguments: seq<string>) returns (line: string)
    ensures line == CommandLine(executable, arguments)
  {
    line := QuoteArgument(executable);
    hide Quoted, NeedsQuotes;
    for i := 0 to |arguments|
      invariant line + Tail(arguments[i..]) == CommandLine(executable, arguments)
    {
      ghost var before := line;
      assert arguments[i..][0] == arguments[i] && arguments[i..][1..] == arguments[i + 1..];
      line := line + " ";
      var needs := CheckQuotes(arguments[i]);
      if needs {
        var quoted := QuoteArgument(arguments[i]);
        line := line + quoted;
      } else {
        line := line + arguments[i];
      }
      assert line + Tail(arguments[i + 1..]) == before + Tail(arguments[i..]);
    }
  }

  method Prepare(r: Request, i: Installation, p: Processes) returns (plan: Plan)
    ensures plan == MakePlan(r, i, p)
  {
    hide CommandLine, Endpoint.ValidEndpoint, ValidName, SafePath, Intended;
    if i.error != "" || i.executable == "" {
      return Refused(if i.error == "" then "original_game_not_found" else i.error);
    }
    var root := CheckPath(i.root);
    var executable := CheckPath(i.executable);
    if !root || !executable || !i.parentMatches || !EqualIgnoringCase(FileName(i.executable), "hl.exe") {
      return Refused("invalid_original_executable");
    }
    var endpoint := Endpoint.RecogniseEndpoint(r.endpoint);
    if !endpoint { return Refused("invalid_endpoint"); }
    var name := CheckName(r.playerName);
    if !name { return Refused("invalid_player_name"); }
    if r.width < 640 || r.width > 7680 || r.height < 480 || r.height > 4320 { return Refused("invalid_video_dimensions"); }
    if r.displayIndex != 0 { return Refused("stock_display_selection_unsupported"); }
    if !p.complete { return Refused(if p.error == "" then "process_inventory_incomplete" else p.error); }
    if p.halfLifeRunning { return Refused("original_half_life_already_running_close_first"); }
    if !p.steamRunning { return Refused("steam_not_running"); }
    var arguments := Intended(r);
    var line := BuildLine(i.executable, arguments);
    if |line| >= 32767 { return Refused("original_command_line_too_long"); }
    return Accepted(i.executable, i.root, arguments, line);
  }
}
