/** The KeyValues subset that Steam's local metadata uses: its lexemes, its parser as a function of
    the text that is still to be read, and exactly which texts the parser accepts. */
module Vdf {
  import opened Common

  datatype Node = Leaf(key: string, value: string) | Object(key: string, children: seq<Node>)
  datatype Lexeme = Word(text: string) | Open | Close

  const MAXIMUM_BYTES: nat := 1048576
  const MAXIMUM_WORDS: nat := 32768
  const MAXIMUM_WORD: nat := 4096
  const MAXIMUM_DEPTH: nat := 16
  const QUOTE: char := '\"'
  const BACKSLASH: char := '\\'
  const NEWLINE: char := '\n'

  // ---- lexemes ----

  predicate Blank(c: char) { c == ' ' || c == '\t' || c == '\r' || c == NEWLINE }

  predicate OpensComment(s: string) { |s| >= 2 && s[0] == '/' && s[1] == '/' }

  function DropLine(s: string): (r: string)
    ensures |r| <= |s|
  {
    if s == [] || s[0] == NEWLINE then s else DropLine(s[1..])
  }

  /** What follows the blanks and comments at the head of `s`. */
  function Skip(s: string): (r: string)
    ensures |r| <= |s|
    decreases |s|
  {
    if s == [] then s
    else if Blank(s[0]) then Skip(s[1..])
    else if OpensComment(s) then Skip(DropLine(s[2..]))
    else s
  }

  datatype Read = Unreadable | Read(text: string, rest: string)

  function Prefixed(c: char, r: Read): Read {
    if r.Unreadable? then r else Read([c] + r.text, r.rest)
  }

  /** The rest of a word whose opening quote has been read. */
  function ReadWord(s: string): (r: Read)
    ensures r.Read? ==> |r.rest| < |s|
  {
    if s == [] then Unreadable
    else if s[0] == QUOTE then Read("", s[1..])
    else if s[0] != BACKSLASH then Prefixed(s[0], ReadWord(s[1..]))
    else if |s| >= 2 && (s[1] == BACKSLASH || s[1] == QUOTE) then Prefixed(s[1], ReadWord(s[2..]))
    else Unreadable
  }

  datatype Next = End | Bad | Got(lexeme: Lexeme, rest: string)

  /** The lexeme at the head of a text that starts with no gap. */
  function Head(t: string): (n: Next)
    requires t != []
    ensures n.Got? ==> |n.rest| < |t|
  {
    if t[0] == '{' then Got(Open, t[1..])
    else if t[0] == '}' then Got(Close, t[1..])
    else if t[0] != QUOTE then Bad
    else
      var r := ReadWord(t[1..]);
      if r.Unreadable? then Bad else Got(Word(r.text), r.rest)
  }

  function NextLexeme(s: string): (n: Next)
    ensures n.Got? ==> |n.rest| < |s|
  {
    var t := Skip(s);
    if t == [] then End else Head(t)
  }

  function Lex(s: string): Option<seq<Lexeme>>
    decreases |s|
  {
    match NextLexeme(s)
    case End => Some([])
    case Bad => None
    case Got(l, rest) => var more := Lex(rest); if more.None? then None else Some([l] + more.value)
  }

  // ---- the texts of lexemes ----

  function EscapedChar(c: char): string {
    if c == QUOTE || c == BACKSLASH then [BACKSLASH, c] else [c]
  }

  function Escaped(text: string): string {
    if text == [] then [] else EscapedChar(text[0]) + Escaped(text[1..])
  }

  function Text(l: Lexeme): (t: string)
    ensures |t| >= 1
  {
    match l
    case Word(text) => [QUOTE] + Escaped(text) + [QUOTE]
    case Open => "{"
    case Close => "}"
  }

  /** Blanks and complete comments. */
  predicate Gap(s: string) {
    if s == [] then true
    else if Blank(s[0]) then Gap(s[1..])
    else
      var n := IndexOf(s, NEWLINE);
      OpensComment(s) && n < |s| && Gap(s[n + 1..])
  }

  /** As `Gap`, where the last comment may lack its newline. */
  predicate LastGap(s: string) {
    if s == [] then true
    else if Blank(s[0]) then LastGap(s[1..])
    else
      var n := IndexOf(s, NEWLINE);
      OpensComment(s) && (n < |s| ==> LastGap(s[n + 1..]))
  }

  /** The lexemes with a gap before each, and a last gap behind them. */
  function Spread(ls: seq<Lexeme>, gaps: seq<string>): string
    requires |gaps| == |ls| + 1
  {
    if ls == [] then gaps[0] else gaps[0] + Text(ls[0]) + Spread(ls[1..], gaps[1..])
  }

  predicate GapsFit(gaps: seq<string>) {
    && |gaps| > 0
    && (forall i :: 0 <= i < |gaps| - 1 ==> Gap(gaps[i]))
    && LastGap(gaps[|gaps| - 1])
  }

  lemma {:induction false} DropLineAt(s: string)
    ensures DropLine(s) == s[IndexOf(s, NEWLINE)..]
  {
    if s != [] && s[0] != NEWLINE {
      DropLineAt(s[1..]);
      assert s[IndexOf(s, NEWLINE)..] == s[1..][IndexOf(s[1..], NEWLINE)..];
    }
  }

  lemma {:induction false} IndexOfPrefix(s: string, t: string, c: char)
    requires c in s
    ensures IndexOf(s, c) < |s| && IndexOf(s + t, c) == IndexOf(s, c)
  {
    assert (s + t)[0] == s[0];
    if s[0] != c {
      assert (s + t)[1..] == s[1..] + t;
      IndexOfPrefix(s[1..], t, c);
    }
  }

  /** Nothing at the head of `t` belongs to a gap. */
  predicate Solid(t: string) { t == [] || (!Blank(t[0]) && t[0] != '/') }

  lemma CommentSkips(s: string)
    requires OpensComment(s)
    ensures var n := IndexOf(s, NEWLINE); Skip(s) == if n < |s| then Skip(s[n + 1..]) else []
  {
    var t := s[2..];
    assert s[1..][1..] == t;
    assert IndexOf(s, NEWLINE) == 2 + IndexOf(t, NEWLINE);
    DropLineAt(t);
    var n := IndexOf(t, NEWLINE);
    assert t[n..] == s[n + 2..];
    if n < |t| { assert t[n..][0] == NEWLINE && t[n..][1..] == s[n + 3..]; }
  }

  lemma {:induction false} GapsSkip(gap: string, t: string)
    requires Gap(gap) && Solid(t)
    ensures Skip(gap + t) == t
  {
    if gap == [] {
      assert gap + t == t;
    } else if Blank(gap[0]) {
      assert (gap + t)[1..] == gap[1..] + t && (gap + t)[0] == gap[0];
      GapsSkip(gap[1..], t);
    } else {
      CommentsSkip(gap, t);
      hide Skip, IndexOf;
      GapsSkip(gap[IndexOf(gap, NEWLINE) + 1..], t);
    }
  }

  lemma CommentsSkip(gap: string, t: string)
    requires OpensComment(gap) && IndexOf(gap, NEWLINE) < |gap|
    ensures Skip(gap + t) == Skip(gap[IndexOf(gap, NEWLINE) + 1..] + t)
  {
    hide Skip, IndexOf;
    var n := IndexOf(gap, NEWLINE);
    assert gap[n] in gap;
    IndexOfPrefix(gap, t, NEWLINE);
    CommentSkips(gap + t);
    assert (gap + t)[n + 1..] == gap[n + 1..] + t;
  }

  lemma {:induction false} LastGapSkips(gap: string)
    requires LastGap(gap)
    ensures Skip(gap) == []
  {
    if gap != [] {
      if Blank(gap[0]) {
        LastGapSkips(gap[1..]);
      } else {
        CommentSkips(gap);
        var n := IndexOf(gap, NEWLINE);
        if n < |gap| { LastGapSkips(gap[n + 1..]); }
      }
    }
  }

  lemma CommentIsGap(s: string, g: string)
    requires OpensComment(s) && IndexOf(s, NEWLINE) < |s|
    ensures var gap := s[..IndexOf(s, NEWLINE) + 1] + g;
            (Gap(g) ==> Gap(gap)) && (LastGap(g) ==> LastGap(gap))
  {
    hide IndexOf;
    var n := IndexOf(s, NEWLINE);
    var line := s[..n + 1];
    assert line[n] in line;
    IndexOfPrefix(line, s[n + 1..], NEWLINE);
    assert line + s[n + 1..] == s;
    IndexOfPrefix(line, g, NEWLINE);
    var gap := line + g;
    assert gap[0] == s[0] == '/' && n >= 2 && gap[1] == s[1];
    assert gap[n + 1..] == g;
  }

  lemma BlankIsGap(c: char, g: string)
    requires Blank(c)
    ensures (Gap(g) ==> Gap([c] + g)) && (LastGap(g) ==> LastGap([c] + g))
  {
    assert ([c] + g)[1..] == g;
  }

  lemma EmptyIsGap()
    ensures Gap("") && LastGap("")
  {
  }

  lemma OpenCommentIsGap(s: string)
    requires OpensComment(s) && IndexOf(s, NEWLINE) == |s|
    ensures LastGap(s)
  {
  }

  lemma NothingSkips(s: string)
    ensures s == [] || (!Blank(s[0]) && !OpensComment(s)) ==> Skip(s) == s
    ensures s != [] && Blank(s[0]) ==> Skip(s) == Skip(s[1..])
  {
  }

  /** What `Skip` skips is a gap, and what it leaves is no gap. */
  lemma {:induction false} SkippedIsGap(s: string) returns (gap: string)
    ensures s == gap + Skip(s)
    ensures Skip(s) == [] ==> LastGap(gap)
    ensures Skip(s) != [] ==> Gap(gap) && !Blank(Skip(s)[0]) && !OpensComment(Skip(s))
    decreases |s|
  {
    hide Skip, Gap, LastGap, IndexOf;
    EmptyIsGap();
    NothingSkips(s);
    if s == [] {
      gap := [];
    } else if Blank(s[0]) {
      var g := SkippedIsGap(s[1..]);
      gap := [s[0]] + g;
      BlankIsGap(s[0], g);
    } else if OpensComment(s) {
      CommentSkips(s);
      var n := IndexOf(s, NEWLINE);
      if n < |s| {
        var g := SkippedIsGap(s[n + 1..]);
        gap := s[..n + 1] + g;
        CommentIsGap(s, g);
      } else {
        OpenCommentIsGap(s);
        gap := s;
      }
    } else {
      gap := [];
    }
  }

  lemma Associate(a: string, b: string, c: string)
    ensures a + b + c == a + (b + c)
  {
  }

  lemma CharReads(c: char, r: string)
    ensures ReadWord(EscapedChar(c) + r) == Prefixed(c, ReadWord(r))
  {
    var s := EscapedChar(c) + r;
    if c == QUOTE || c == BACKSLASH {
      assert s[0] == BACKSLASH && s[1] == c && s[2..] == r;
    } else {
      assert s[0] == c && s[1..] == r;
    }
  }

  lemma {:induction false} WordReads(text: string, t: string)
    ensures ReadWord(Escaped(text) + [QUOTE] + t) == Read(text, t)
  {
    if text == [] {
      assert (Escaped(text) + [QUOTE] + t)[1..] == t;
    } else {
      hide ReadWord, EscapedChar;
      var c, more := text[0], Escaped(text[1..]);
      WordReads(text[1..], t);
      CharReads(c, more + [QUOTE] + t);
      Associate(EscapedChar(c), more, [QUOTE]);
      Associate(EscapedChar(c), more + [QUOTE], t);
    }
  }

  /** The character that the head of an unfinished word stands for, and what is behind it. */
  lemma CharWasRead(s: string) returns (c: char, r: string)
    requires ReadWord(s).Read? && s[0] != QUOTE
    ensures s == EscapedChar(c) + r && ReadWord(s) == Prefixed(c, ReadWord(r)) && |r| < |s|
  {
    if s[0] != BACKSLASH {
      c, r := s[0], s[1..];
    } else {
      c, r := s[1], s[2..];
    }
  }

  lemma {:induction false} WordWasEscaped(s: string)
    requires ReadWord(s).Read?
    ensures s == Escaped(ReadWord(s).text) + [QUOTE] + ReadWord(s).rest
    decreases |s|
  {
    if s[0] == QUOTE {
      assert s == [QUOTE] + s[1..];
    } else {
      hide ReadWord, EscapedChar;
      var c, r := CharWasRead(s);
      WordWasEscaped(r);
      var w := ReadWord(r);
      WordTail(c, w.text);
      hide Escaped;
      Associate(EscapedChar(c), Escaped(w.text), [QUOTE]);
      Associate(EscapedChar(c), Escaped(w.text) + [QUOTE], w.rest);
    }
  }

  lemma WordTail(c: char, text: string)
    ensures Escaped([c] + text) == EscapedChar(c) + Escaped(text)
  {
    assert ([c] + text)[1..] == text;
  }

  lemma HeadReads(l: Lexeme, t: string)
    ensures Head(Text(l) + t) == Got(l, t) && Solid(Text(l) + t)
  {
    var s := Text(l) + t;
    if l.Word? {
      hide Escaped, ReadWord;
      WordReads(l.text, t);
      Associate([QUOTE], Escaped(l.text), [QUOTE]);
      Associate([QUOTE], Escaped(l.text) + [QUOTE], t);
      assert s[0] == QUOTE && s[1..] == Escaped(l.text) + [QUOTE] + t;
    } else {
      assert s[1..] == t;
    }
  }

  lemma HeadWasRead(t: string)
    requires t != [] && Head(t).Got?
    ensures t == Text(Head(t).lexeme) + Head(t).rest
  {
    assert t == [t[0]] + t[1..];
    if t[0] == QUOTE { WordWasEscaped(t[1..]); }
    hide Escaped, ReadWord;
  }

  lemma LexemeReads(gap: string, l: Lexeme, t: string)
    requires Gap(gap)
    ensures NextLexeme(gap + Text(l) + t) == Got(l, t)
  {
    hide Text, Gap, Skip, Head, Solid;
    HeadReads(l, t);
    GapsSkip(gap, Text(l) + t);
    Associate(gap, Text(l), t);
  }

  lemma LexemeWasRead(s: string) returns (gap: string)
    requires NextLexeme(s).Got?
    ensures Gap(gap) && s == gap + Text(NextLexeme(s).lexeme) + NextLexeme(s).rest
  {
    hide Text, Gap, LastGap, Skip, Head, Escaped, ReadWord;
    gap := SkippedIsGap(s);
    var t := Skip(s);
    HeadWasRead(t);
    assert s == gap + t;
  }

  lemma {:induction false} SpreadLexes(ls: seq<Lexeme>, gaps: seq<string>)
    requires |gaps| == |ls| + 1 && GapsFit(gaps)
    ensures Lex(Spread(ls, gaps)) == Some(ls)
  {
    hide NextLexeme, Gap, LastGap;
    if ls == [] {
      LastGapSkips(gaps[0]);
      assert NextLexeme(gaps[0]) == End by { NothingNext(gaps[0]); }
    } else {
      var rest := Spread(ls[1..], gaps[1..]);
      LexemeReads(gaps[0], ls[0], rest);
      assert GapsFit(gaps[1..]);
      SpreadLexes(ls[1..], gaps[1..]);
      assert ls == [ls[0]] + ls[1..];
    }
  }

  lemma NothingNext(s: string)
    requires Skip(s) == []
    ensures NextLexeme(s) == End
  {
  }

  lemma {:induction false} LexedWasSpread(s: string) returns (gaps: seq<string>)
    requires Lex(s).Some?
    ensures |gaps| == |Lex(s).value| + 1 && GapsFit(gaps) && s == Spread(Lex(s).value, gaps)
    decreases |s|
  {
    hide Gap, LastGap, Text;
    var n := NextLexeme(s);
    if n.End? {
      var gap := SkippedIsGap(s);
      gaps := [gap];
      assert s == gap + [];
    } else {
      var gap := LexemeWasRead(s);
      var more := LexedWasSpread(n.rest);
      gaps := [gap] + more;
      assert gaps[1..] == more && Lex(s).value[1..] == Lex(n.rest).value;
    }
  }

  /** The texts that lex to `ls` are those in which gaps surround the texts of `ls`. */
  lemma LexExact(s: string, ls: seq<Lexeme>)
    ensures Lex(s) == Some(ls)
            <==> exists gaps: seq<string> :: |gaps| == |ls| + 1 && GapsFit(gaps) && s == Spread(ls, gaps)
  {
    hide Lex, Spread, GapsFit;
    if Lex(s) == Some(ls) {
      var gaps := LexedWasSpread(s);
    }
    forall gaps: seq<string> | |gaps| == |ls| + 1 && GapsFit(gaps) && s == Spread(ls, gaps)
      ensures Lex(s) == Some(ls)
    {
      SpreadLexes(ls, gaps);
    }
  }

  // ---- what separates words ----

  lemma SeparatorAhead(c: char, b: string)
    ensures var t := [c] + Text(Word(b));
            if c == ' ' || c == '\t' || c == '\r' || c == '\n' then NextLexeme(t) == Got(Word(b), "")
            else !NextLexeme(t).End?
                 && (NextLexeme(t).Got? ==> NextLexeme(t).lexeme != Word(b) || Lex(NextLexeme(t).rest) != Some([]))
  {
    var t, w := [c] + Text(Word(b)), Text(Word(b));
    assert t[0] == c && t[1..] == w && w[0] == QUOTE;
    if Blank(c) {
      BlankIsGap(c, "");
      EmptyIsGap();
      assert [c] + "" == [c] && w + "" == w;
      hide Gap, LastGap, Escaped;
      LexemeReads([c], Word(b), "");
      assert [c] + w + "" == t;
    } else {
      assert !OpensComment(t);
      assert Skip(t) == t;
      if c == QUOTE { QuoteAhead(b); }
    }
  }

  /** A quote right behind a word opens another one, which is empty. */
  lemma QuoteAhead(b: string)
    ensures var t := [QUOTE] + Text(Word(b));
            Head(t).Got? && Head(t).lexeme == Word("") && (b == "" ==> Lex(Head(t).rest) == None)
  {
    var t, w := [QUOTE] + Text(Word(b)), Text(Word(b));
    assert t[1..] == w && w[0] == QUOTE;
    if b == "" {
      assert w == [QUOTE, QUOTE] && w[1..] == [QUOTE];
      assert [QUOTE][1..] == [] && Skip([QUOTE]) == [QUOTE];
      assert NextLexeme([QUOTE]) == Bad;
    }
  }

  lemma LexTwo(s: string, rest: string, a: Lexeme, b: Lexeme)
    requires NextLexeme(s) == Got(a, rest)
    ensures Lex(s) == Some([a, b]) <==> Lex(rest) == Some([b])
  {
    hide NextLexeme;
    var more := Lex(rest);
    assert Lex(s) == if more.None? then None else Some([a] + more.value);
    if more.Some? && [a] + more.value == [a, b] { assert ([a] + more.value)[1..] == more.value; }
  }

  lemma LexOne(t: string, b: Lexeme)
    requires !NextLexeme(t).End?
    ensures Lex(t) == Some([b])
            <==> NextLexeme(t).Got? && NextLexeme(t).lexeme == b && Lex(NextLexeme(t).rest) == Some([])
  {
    hide NextLexeme;
    var n := NextLexeme(t);
    if n.Got? {
      var more := Lex(n.rest);
      assert Lex(t) == if more.None? then None else Some([n.lexeme] + more.value);
      if more.Some? && [n.lexeme] + more.value == [b] { assert ([n.lexeme] + more.value)[0] == n.lexeme; }
    }
  }

  lemma NothingLexed()
    ensures Lex("") == Some([])
  {
    assert Skip("") == "";
  }

  /** Two words are read one after the other across a single character exactly when it is a space, a tab,
      a carriage return or a line feed. */
  lemma SeparatorsExact(a: string, c: char, b: string)
    ensures Lex(Text(Word(a)) + ([c] + Text(Word(b)))) == Some([Word(a), Word(b)])
            <==> c == ' ' || c == '\t' || c == '\r' || c == '\n'
  {
    hide Text, NextLexeme, Gap, Lex;
    var t := [c] + Text(Word(b));
    EmptyIsGap();
    LexemeReads("", Word(a), t);
    assert "" + Text(Word(a)) + t == Text(Word(a)) + t;
    LexTwo(Text(Word(a)) + t, t, Word(a), Word(b));
    SeparatorAhead(c, b);
    LexOne(t, Word(b));
    NothingLexed();
  }
}
