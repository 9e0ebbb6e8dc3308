/** The recursive-descent parser as a function of what is still to be read, and the exact set of
    texts it accepts. */
module VdfGrammar {
  import opened Common
  import opened Vdf

  // ---- forests ----

  function Lexemes(nodes: seq<Node>): seq<Lexeme>
    decreases nodes
  {
    if nodes == [] then [] else NodeLexemes(nodes[0]) + Lexemes(nodes[1..])
  }

  function NodeLexemes(n: Node): seq<Lexeme>
    decreases n
  {
    match n
    case Leaf(key, value) => [Word(key), Word(value)]
    case Object(key, children) => [Word(key), Open] + Lexemes(children) + [Close]
  }

  function Words(nodes: seq<Node>): nat
    decreases nodes
  {
    if nodes == [] then 0
    else (match nodes[0] case Leaf(_, _) => 2 case Object(_, children) => 1 + Words(children)) + Words(nodes[1..])
  }

  /** How deep objects are nested in one another. */
  function Depth(nodes: seq<Node>): nat
    decreases nodes
  {
    if nodes == [] then 0
    else
      var first := match nodes[0] case Leaf(_, _) => 0 case Object(_, children) => 1 + Depth(children);
      var rest := Depth(nodes[1..]);
      if first < rest then rest else first
  }

  predicate FitWord(text: string) { |text| <= MAXIMUM_WORD && forall c <- text :: c >= ' ' }

  predicate FitWords(nodes: seq<Node>)
    decreases nodes
  {
    nodes == [] || (
      && FitWord(nodes[0].key)
      && (match nodes[0] case Leaf(_, value) => FitWord(value) case Object(_, children) => FitWords(children))
      && FitWords(nodes[1..]))
  }

  /** The limits, for a forest read at `depth` after `words` words. */
  predicate Within(nodes: seq<Node>, depth: nat, words: nat) {
    depth + Depth(nodes) <= MAXIMUM_DEPTH && words + Words(nodes) <= MAXIMUM_WORDS && FitWords(nodes)
  }

  // ---- the parser ----

  datatype Parsed = Failed | Parsed(nodes: seq<Node>, rest: string, words: nat)

  function TokenAt(s: string, words: nat): (r: Read)
    ensures r.Read? ==> |r.rest| < |s|
  {
    var t := Skip(s);
    if words + 1 > MAXIMUM_WORDS || t == [] || t[0] != QUOTE then Unreadable
    else
      var r := ReadWord(t[1..]);
      if r.Read? && !FitWord(r.text) then Unreadable else r
  }

  function Prepend(n: Node, p: Parsed): Parsed {
    if p.Failed? then p else Parsed([n] + p.nodes, p.rest, p.words)
  }

  /** The nodes at the head of `s`, up to the brace that closes them when they are nested. */
  function Nodes(s: string, depth: nat, nested: bool, words: nat): (p: Parsed)
    ensures p.Parsed? ==> |p.rest| <= |s| && (nested ==> |p.rest| < |s|)
    decreases |s|
  {
    var t := Skip(s);
    if depth > MAXIMUM_DEPTH then Failed
    else if t == [] then
      if nested then Failed else Parsed([], [], words)
    else if t[0] == '}' then
      if nested then Parsed([], t[1..], words) else Failed
    else
      var key := TokenAt(t, words);
      if key.Unreadable? then Failed else
        var u := Skip(key.rest);
        if u != [] && u[0] == '{' then
          var inner := Nodes(u[1..], depth + 1, true, words + 1);
          if inner.Failed? then Failed
          else Prepend(Object(key.text, inner.nodes), Nodes(inner.rest, depth, nested, inner.words))
        else
          var value := TokenAt(u, words + 1);
          if value.Unreadable? then Failed
          else Prepend(Leaf(key.text, value.text), Nodes(value.rest, depth, nested, words + 2))
  }

  const MARK: string := [239 as char, 187 as char, 191 as char]

  /** The input without its byte order mark. */
  function Body(input: string): string { if StartsWith(input, MARK) then input[3..] else input }

  predicate Readable(input: string) { input != "" && |input| <= MAXIMUM_BYTES && '\0' !in input }

  function Parse(input: string): Option<seq<Node>> {
    if !Readable(input) then None
    else match Nodes(Body(input), 0, false, 0)
      case Failed => None
      case Parsed(nodes, _, _) => Some(nodes)
  }

  // ---- which texts it accepts ----

  lemma {:induction false} SkipTwice(s: string)
    ensures Skip(Skip(s)) == Skip(s)
    decreases |s|
  {
    if s != [] {
      if Blank(s[0]) { SkipTwice(s[1..]); }
      else if OpensComment(s) { SkipTwice(DropLine(s[2..])); }
    }
  }

  /** A token is a word lexeme within the limits. */
  lemma TokenIsWord(s: string, words: nat)
    ensures TokenAt(Skip(s), words).Read?
            <==> NextLexeme(s).Got? && NextLexeme(s).lexeme.Word?
                 && words < MAXIMUM_WORDS && FitWord(NextLexeme(s).lexeme.text)
    ensures TokenAt(Skip(s), words).Read? ==>
              NextLexeme(s) == Got(Word(TokenAt(Skip(s), words).text), TokenAt(Skip(s), words).rest)
  {
    SkipTwice(s);
    hide Skip, ReadWord, FitWord;
  }

  function Joined(ls: seq<Lexeme>, more: Option<seq<Lexeme>>): Option<seq<Lexeme>> {
    if more.None? then None else Some(ls + more.value)
  }

  lemma JoinedTwice(a: seq<Lexeme>, b: seq<Lexeme>, more: Option<seq<Lexeme>>)
    ensures Joined(a, Joined(b, more)) == Joined(a + b, more)
  {
    if more.Some? { assert a + (b + more.value) == a + b + more.value; }
  }

  lemma LexStep(s: string)
    requires NextLexeme(s).Got?
    ensures Lex(s) == Joined([NextLexeme(s).lexeme], Lex(NextLexeme(s).rest))
  {
  }

  /** The lexemes that end a nested or an outermost list of nodes. */
  function Ending(nested: bool): seq<Lexeme> { if nested then [Close] else [] }

  function After(nested: bool, rest: string): Option<seq<Lexeme>> { if nested then Lex(rest) else Some([]) }

  lemma WithinLeaf(key: string, value: string, rest: seq<Node>, depth: nat, words: nat)
    ensures Within([Leaf(key, value)] + rest, depth, words)
            <==> Within(rest, depth, words + 2) && FitWord(key) && FitWord(value)
    ensures Words([Leaf(key, value)] + rest) == 2 + Words(rest)
  {
    assert ([Leaf(key, value)] + rest)[1..] == rest;
  }

  lemma WithinObject(key: string, children: seq<Node>, rest: seq<Node>, depth: nat, words: nat)
    ensures Within([Object(key, children)] + rest, depth, words)
            <==> FitWord(key) && Within(children, depth + 1, words + 1)
                 && Within(rest, depth, words + 1 + Words(children))
    ensures Words([Object(key, children)] + rest) == 1 + Words(children) + Words(rest)
  {
    assert ([Object(key, children)] + rest)[1..] == rest;
  }

  lemma WithinNothing(depth: nat, words: nat)
    ensures Within([], depth, words) <==> depth <= MAXIMUM_DEPTH && words <= MAXIMUM_WORDS
    ensures Words([]) == 0 && Lexemes([]) == []
  {
  }

  /** Whatever is parsed was there as lexemes, within the limits. */
  predicate Faithful(s: string, p: Parsed, depth: nat, nested: bool, words: nat) {
    p.Parsed? ==>
      && Within(p.nodes, depth, words) && p.words == words + Words(p.nodes)
      && Lex(s) == Joined(Lexemes(p.nodes) + Ending(nested), After(nested, p.rest))
  }

  lemma LeafIsFaithful(s: string, key: Read, text: Read, p: Parsed, depth: nat, nested: bool, words: nat)
    requires key.Read? && key == TokenAt(Skip(s), words) && text.Read? && text == TokenAt(Skip(key.rest), words + 1)
    requires Faithful(text.rest, p, depth, nested, words + 2)
    ensures Faithful(s, Prepend(Leaf(key.text, text.text), p), depth, nested, words)
  {
    TokenIsWord(s, words);
    LexStep(s);
    TokenIsWord(key.rest, words + 1);
    LexStep(key.rest);
    hide TokenAt, NextLexeme, Lex, Skip, FitWord, Within, Words, Lexemes, Joined, After, Ending;
    if p.Parsed? {
      WithinLeaf(key.text, text.text, p.nodes, depth, words);
      LeafLexed(key.text, text.text, p.nodes, Ending(nested), After(nested, p.rest));
    }
  }

  lemma ObjectIsFaithful(s: string, key: Read, inner: Parsed, p: Parsed, depth: nat, nested: bool, words: nat)
    requires key.Read? && key == TokenAt(Skip(s), words) && Skip(key.rest) != [] && Skip(key.rest)[0] == '{'
    requires inner.Parsed? && Faithful(Skip(key.rest)[1..], inner, depth + 1, true, words + 1)
    requires Faithful(inner.rest, p, depth, nested, inner.words)
    ensures Faithful(s, Prepend(Object(key.text, inner.nodes), p), depth, nested, words)
  {
    hide TokenAt, NextLexeme, Lex, Skip, FitWord, Within, Words, Lexemes, Joined, After, Ending;
    TokenIsWord(s, words);
    LexStep(s);
    LexOpens(key.rest);
    LexStep(key.rest);
    NestedAfter(inner.nodes, inner.rest);
    if p.Parsed? {
      WithinObject(key.text, inner.nodes, p.nodes, depth, words);
      ObjectLexed(key.text, inner.nodes, p.nodes, Ending(nested), After(nested, p.rest));
    }
  }

  lemma NestedAfter(nodes: seq<Node>, rest: string)
    ensures Lexemes(nodes) + Ending(true) == Lexemes(nodes) + [Close] && After(true, rest) == Lex(rest)
  {
  }

  lemma NothingIsFaithful(s: string, p: Parsed, depth: nat, nested: bool, words: nat)
    requires words <= MAXIMUM_WORDS && depth <= MAXIMUM_DEPTH
    requires Skip(s) == [] || Skip(s)[0] == '}'
    requires p == Nodes(s, depth, nested, words)
    ensures Faithful(s, p, depth, nested, words)
  {
    if p.Parsed? {
      WithinNothing(depth, words);
      if nested {
        LexCloses(s);
        LexStep(s);
        assert [] + [Close] == [Close];
      } else {
        LexEnds(s);
        var none: seq<Lexeme> := [];
        assert none + none == none;
      }
    }
  }

  lemma FaithfulIsBounded(s: string, p: Parsed, depth: nat, nested: bool, words: nat)
    requires Faithful(s, p, depth, nested, words) && p.Parsed?
    ensures p.words <= MAXIMUM_WORDS
  {
  }

  lemma {:induction false} ParsingIsFaithful(s: string, depth: nat, nested: bool, words: nat)
    requires words <= MAXIMUM_WORDS
    ensures Faithful(s, Nodes(s, depth, nested, words), depth, nested, words)
    decreases |s|
  {
    hide Faithful, TokenAt, Skip;
    var t, p := Skip(s), Nodes(s, depth, nested, words);
    if p.Failed? {
      FailureIsFaithful(s, depth, nested, words);
    } else if t == [] || t[0] == '}' {
      NothingIsFaithful(s, p, depth, nested, words);
    } else {
      TokenCounts(t, words);
      var key := TokenAt(t, words);
      var u := Skip(key.rest);
      if u != [] && u[0] == '{' {
        var inner := Nodes(u[1..], depth + 1, true, words + 1);
        ParsingIsFaithful(u[1..], depth + 1, true, words + 1);
        FaithfulIsBounded(u[1..], inner, depth + 1, true, words + 1);
        ParsingIsFaithful(inner.rest, depth, nested, inner.words);
        ObjectIsFaithful(s, key, inner, Nodes(inner.rest, depth, nested, inner.words), depth, nested, words);
      } else {
        TokenCounts(u, words + 1);
        var value := TokenAt(u, words + 1);
        ParsingIsFaithful(value.rest, depth, nested, words + 2);
        LeafIsFaithful(s, key, value, Nodes(value.rest, depth, nested, words + 2), depth, nested, words);
      }
    }
  }

  lemma FailureIsFaithful(s: string, depth: nat, nested: bool, words: nat)
    ensures Faithful(s, Failed, depth, nested, words)
  {
  }

  lemma TokenCounts(t: string, words: nat)
    ensures TokenAt(t, words).Read? ==> words < MAXIMUM_WORDS
  {
  }

  lemma LexEnds(s: string)
    requires Skip(s) == []
    ensures Lex(s) == Some([])
  {
  }

  lemma LexCloses(s: string)
    requires Skip(s) != [] && Skip(s)[0] == '}'
    ensures NextLexeme(s) == Got(Close, Skip(s)[1..])
  {
  }

  lemma LexOpens(s: string)
    requires Skip(s) != [] && Skip(s)[0] == '{'
    ensures NextLexeme(s) == Got(Open, Skip(s)[1..])
  {
  }

  lemma LeafLexed(key: string, value: string, rest: seq<Node>, ending: seq<Lexeme>, after: Option<seq<Lexeme>>)
    ensures Joined([Word(key)], Joined([Word(value)], Joined(Lexemes(rest) + ending, after)))
            == Joined(Lexemes([Leaf(key, value)] + rest) + ending, after)
  {
    JoinedTwice([Word(value)], Lexemes(rest) + ending, after);
    JoinedTwice([Word(key)], [Word(value)] + (Lexemes(rest) + ending), after);
    assert ([Leaf(key, value)] + rest)[1..] == rest;
    assert [Word(key)] + ([Word(value)] + (Lexemes(rest) + ending)) == [Word(key), Word(value)] + Lexemes(rest) + ending;
  }

  lemma ObjectLexed(key: string, children: seq<Node>, rest: seq<Node>, ending: seq<Lexeme>, after: Option<seq<Lexeme>>)
    ensures Joined([Word(key)], Joined([Open], Joined(Lexemes(children) + [Close], Joined(Lexemes(rest) + ending, after))))
            == Joined(Lexemes([Object(key, children)] + rest) + ending, after)
  {
    var inner, outer := Lexemes(children) + [Close], Lexemes(rest) + ending;
    JoinedTwice(inner, outer, after);
    JoinedTwice([Open], inner + outer, after);
    JoinedTwice([Word(key)], [Open] + (inner + outer), after);
    assert ([Object(key, children)] + rest)[1..] == rest;
    assert [Word(key)] + ([Open] + (inner + outer)) == [Word(key), Open] + Lexemes(children) + [Close] + Lexemes(rest) + ending;
  }

  // ---- every text within the limits is accepted ----

  lemma HeadLexeme(s: string, l: Lexeme, more: seq<Lexeme>)
    requires Lex(s) == Some([l] + more)
    ensures NextLexeme(s).Got? && NextLexeme(s).lexeme == l && Lex(NextLexeme(s).rest) == Some(more)
  {
    var n := NextLexeme(s);
    assert Lex(s).value[0] == n.lexeme && Lex(s).value[1..] == Lex(n.rest).value;
    assert ([l] + more)[1..] == more;
  }

  lemma WordIsToken(s: string, text: string, more: seq<Lexeme>, words: nat)
    requires Lex(s) == Some([Word(text)] + more) && words < MAXIMUM_WORDS && FitWord(text)
    ensures Skip(s) != [] && Skip(s)[0] == QUOTE
    ensures TokenAt(Skip(s), words).Read? && TokenAt(Skip(s), words).text == text
    ensures Lex(TokenAt(Skip(s), words).rest) == Some(more)
  {
    HeadLexeme(s, Word(text), more);
    TokenIsWord(s, words);
    hide Lex, TokenAt, ReadWord, FitWord;
  }

  lemma BraceIsNext(s: string, l: Lexeme, more: seq<Lexeme>)
    requires Lex(s) == Some([l] + more) && !l.Word?
    ensures Skip(s) != [] && Skip(s)[0] == (if l == Open then '{' else '}') && Lex(Skip(s)[1..]) == Some(more)
  {
    HeadLexeme(s, l, more);
    hide Lex, ReadWord;
  }

  lemma NothingIsNext(s: string)
    requires Lex(s) == Some([])
    ensures Skip(s) == []
  {
  }

  /** The parse that the lexemes `f`, an ending and `more` call for. */
  predicate ParsesTo(p: Parsed, f: seq<Node>, more: seq<Lexeme>, nested: bool, words: nat) {
    && p.Parsed? && p.nodes == f && p.words == words + Words(f)
    && (nested ==> Lex(p.rest) == Some(more))
  }

  function Needed(f: seq<Node>, nested: bool, more: seq<Lexeme>): seq<Lexeme> {
    Lexemes(f) + Ending(nested) + more
  }

  lemma NeededLeaf(key: string, value: string, rest: seq<Node>, nested: bool, more: seq<Lexeme>)
    ensures Needed([Leaf(key, value)] + rest, nested, more) == [Word(key)] + ([Word(value)] + Needed(rest, nested, more))
  {
    assert ([Leaf(key, value)] + rest)[1..] == rest;
    var ls := Lexemes(rest);
    assert Lexemes([Leaf(key, value)] + rest) == [Word(key), Word(value)] + ls;
    assert [Word(key), Word(value)] + ls + Ending(nested) + more
        == [Word(key)] + ([Word(value)] + (ls + Ending(nested) + more));
  }

  lemma NeededObject(key: string, children: seq<Node>, rest: seq<Node>, nested: bool, more: seq<Lexeme>)
    ensures Needed([Object(key, children)] + rest, nested, more)
            == [Word(key)] + ([Open] + Needed(children, true, Needed(rest, nested, more)))
  {
    assert ([Object(key, children)] + rest)[1..] == rest;
    var inner, outer := Lexemes(children), Lexemes(rest);
    assert Lexemes([Object(key, children)] + rest) == [Word(key), Open] + inner + [Close] + outer;
    assert ([Word(key), Open] + inner + [Close]) + outer + Ending(nested) + more
        == [Word(key)] + ([Open] + (inner + [Close] + (outer + Ending(nested) + more)));
  }

  lemma NeededNothing(nested: bool, more: seq<Lexeme>)
    requires nested || more == []
    ensures Needed([], nested, more) == if nested then [Close] + more else []
    ensures Words([]) == 0
  {
    var none: seq<Lexeme> := [];
    assert none + Ending(nested) == Ending(nested) && none + more == more;
  }

  lemma NothingParses(s: string, more: seq<Lexeme>, depth: nat, nested: bool, words: nat)
    requires Lex(s) == Some(Needed([], nested, more)) && (nested || more == []) && depth <= MAXIMUM_DEPTH
    ensures ParsesTo(Nodes(s, depth, nested, words), [], more, nested, words)
  {
    NeededNothing(nested, more);
    hide Lex, Needed;
    if nested {
      BraceIsNext(s, Close, more);
    } else {
      NothingIsNext(s);
    }
  }

  lemma PrependParses(n: Node, p: Parsed, rest: seq<Node>, more: seq<Lexeme>, nested: bool, words: nat)
    requires ParsesTo(p, rest, more, nested, words + (if n.Leaf? then 2 else 1 + Words(n.children)))
    ensures ParsesTo(Prepend(n, p), [n] + rest, more, nested, words)
  {
    assert ([n] + rest)[1..] == rest;
  }

  lemma {:induction false} LexedIsParsed(s: string, f: seq<Node>, more: seq<Lexeme>, depth: nat, nested: bool,
                words: nat)
    requires Lex(s) == Some(Needed(f, nested, more)) && (nested || more == []) && Within(f, depth, words)
    ensures ParsesTo(Nodes(s, depth, nested, words), f, more, nested, words)
    decreases f
  {
    hide Lex, Needed, Within, TokenAt, Skip, Words;
    if f == [] {
      WithinIsBounded(f, depth, words);
      NothingParses(s, more, depth, nested, words);
    } else {
      var rest := f[1..];
      assert f == [f[0]] + rest;
      match f[0]
      case Leaf(key, value) =>
        LeafParses(s, key, value, rest, more, depth, nested, words);
        var next := TokenAt(Skip(TokenAt(Skip(s), words).rest), words + 1).rest;
        LexedIsParsed(next, rest, more, depth, nested, words + 2);
        hide Nodes;
        PrependParses(f[0], Nodes(next, depth, nested, words + 2), rest, more, nested, words);
      case Object(key, children) =>
        ObjectParses(s, key, children, rest, more, depth, nested, words);
        var inside := Skip(TokenAt(Skip(s), words).rest)[1..];
        LexedIsParsed(inside, children, Needed(rest, nested, more), depth + 1, true, words + 1);
        hide Nodes;
        var inner := Nodes(inside, depth + 1, true, words + 1);
        LexedIsParsed(inner.rest, rest, more, depth, nested, inner.words);
        PrependParses(f[0], Nodes(inner.rest, depth, nested, inner.words), rest, more, nested, words);
    }
  }

  lemma LeafParses(s: string, key: string, value: string, rest: seq<Node>, more: seq<Lexeme>, depth: nat,
                nested: bool, words: nat)
    requires Lex(s) == Some(Needed([Leaf(key, value)] + rest, nested, more))
    requires Within([Leaf(key, value)] + rest, depth, words)
    ensures Within(rest, depth, words + 2)
    ensures var k := TokenAt(Skip(s), words);
            && k.Read?
            && var v := TokenAt(Skip(k.rest), words + 1);
            && v.Read? && Lex(v.rest) == Some(Needed(rest, nested, more))
            && Nodes(s, depth, nested, words) == Prepend(Leaf(key, value), Nodes(v.rest, depth, nested, words + 2))
  {
    WithinLeaf(key, value, rest, depth, words);
    NeededLeaf(key, value, rest, nested, more);
    WithinIsBounded(rest, depth, words + 2);
    hide Needed, Within, FitWord, Lex, TokenAt, Skip;
    WordIsToken(s, key, [Word(value)] + Needed(rest, nested, more), words);
    WordIsToken(TokenAt(Skip(s), words).rest, value, Needed(rest, nested, more), words + 1);
  }

  lemma WithinIsBounded(nodes: seq<Node>, depth: nat, words: nat)
    requires Within(nodes, depth, words)
    ensures depth <= MAXIMUM_DEPTH && words <= MAXIMUM_WORDS
  {
  }

  lemma ObjectParses(s: string, key: string, children: seq<Node>, rest: seq<Node>, more: seq<Lexeme>, depth: nat,
                nested: bool, words: nat)
    requires Lex(s) == Some(Needed([Object(key, children)] + rest, nested, more))
    requires Within([Object(key, children)] + rest, depth, words)
    ensures Within(children, depth + 1, words + 1) && Within(rest, depth, words + 1 + Words(children))
    ensures var k := TokenAt(Skip(s), words);
            && k.Read? && Skip(k.rest) != []
            && var inside := Skip(k.rest)[1..];
            && Lex(inside) == Some(Needed(children, true, Needed(rest, nested, more)))
            && var inner := Nodes(inside, depth + 1, true, words + 1);
               inner.Parsed? ==> Nodes(s, depth, nested, words)
                                 == Prepend(Object(key, inner.nodes), Nodes(inner.rest, depth, nested, inner.words))
  {
    WithinObject(key, children, rest, depth, words);
    NeededObject(key, children, rest, nested, more);
    WithinIsBounded(children, depth + 1, words + 1);
    hide Needed, Within, FitWord, Lex, TokenAt, Skip;
    var inside := Needed(children, true, Needed(rest, nested, more));
    WordIsToken(s, key, [Open] + inside, words);
    BraceIsNext(TokenAt(Skip(s), words).rest, Open, inside);
  }

  // ---- the accepted language ----

  /** The parser accepts exactly the texts whose lexemes are those of a forest within the limits,
      and returns that forest. */
  lemma ParseExact(input: string, f: seq<Node>)
    ensures Parse(input) == Some(f)
            <==> Readable(input) && Lex(Body(input)) == Some(Lexemes(f)) && Within(f, 0, 0)
  {
    hide Lex, Within, Nodes, Body, Readable;
    var none: seq<Lexeme> := [];
    var p := Nodes(Body(input), 0, false, 0);
    ParsingIsFaithful(Body(input), 0, false, 0);
    if p.Parsed? {
      assert Lexemes(p.nodes) + Ending(false) + none == Lexemes(p.nodes);
    }
    if Lex(Body(input)) == Some(Lexemes(f)) && Within(f, 0, 0) {
      assert Needed(f, false, none) == Lexemes(f);
      LexedIsParsed(Body(input), f, none, 0, false, 0);
    }
  }

  predicate Renders(text: string, f: seq<Node>, gaps: seq<string>) {
    |gaps| == |Lexemes(f)| + 1 && GapsFit(gaps) && text == Spread(Lexemes(f), gaps)
  }

  /** In terms of characters: after the byte order mark, the texts of the forest's lexemes with
      blanks and comments around them, and nothing else. */
  lemma AcceptedTexts(input: string, f: seq<Node>)
    ensures Parse(input) == Some(f)
            <==> Readable(input) && Within(f, 0, 0) && exists gaps: seq<string> :: Renders(Body(input), f, gaps)
  {
    ParseExact(input, f);
    LexExact(Body(input), Lexemes(f));
    hide Parse, Readable, Within, Body, GapsFit, Spread, Lexemes;
    forall gaps: seq<string> | |gaps| == |Lexemes(f)| + 1 && GapsFit(gaps) && Body(input) == Spread(Lexemes(f), gaps)
      ensures Renders(Body(input), f, gaps)
    {
    }
  }

  lemma {:induction false} GapStart(gap: string)
    requires LastGap(gap) && gap != []
    ensures Blank(gap[0]) || gap[0] == '/'
  {
  }

  lemma {:induction false} CompleteGaps(gap: string)
    requires Gap(gap)
    ensures LastGap(gap)
  {
    if gap != [] {
      if Blank(gap[0]) { CompleteGaps(gap[1..]); } else { CompleteGaps(gap[IndexOf(gap, NEWLINE) + 1..]); }
    }
  }

  lemma TextStart(l: Lexeme)
    ensures Text(l)[0] == QUOTE || Text(l)[0] == '{' || Text(l)[0] == '}'
  {
  }

  lemma Unmarked(s: string)
    requires s == "" || s[0] as int < 128
    ensures Body(s) == s
  {
    if |s| >= 3 { assert s[..3][0] == s[0]; }
  }

  /** A rendering never looks like a byte order mark. */
  lemma RenderingsAreUnmarked(ls: seq<Lexeme>, gaps: seq<string>)
    requires |gaps| == |ls| + 1 && GapsFit(gaps)
    ensures Body(Spread(ls, gaps)) == Spread(ls, gaps)
  {
    hide Gap, LastGap, Text, Body;
    var s, gap := Spread(ls, gaps), gaps[0];
    if ls != [] {
      CompleteGaps(gap);
      TextStart(ls[0]);
    }
    if gap != [] {
      GapStart(gap);
      assert s[0] == gap[0];
    } else if ls != [] {
      assert s[0] == Text(ls[0])[0];
    }
    Unmarked(s);
  }

  /** Printing and parsing undo each other, whatever blanks and comments stand between the words. */
  lemma RoundTrip(f: seq<Node>, gaps: seq<string>)
    requires |gaps| == |Lexemes(f)| + 1 && GapsFit(gaps)
    ensures Parse(Spread(Lexemes(f), gaps)) == Some(f)
            <==> Readable(Spread(Lexemes(f), gaps)) && Within(f, 0, 0)
  {
    var text := Spread(Lexemes(f), gaps);
    RenderingsAreUnmarked(Lexemes(f), gaps);
    SpreadLexes(Lexemes(f), gaps);
    ParseExact(text, f);
    hide Parse, Readable, Within, Lexemes, Spread, GapsFit, Lex;
  }

  // ---- the shortest text of a forest ----

  function Texts(ls: seq<Lexeme>): string {
    if ls == [] then [] else Text(ls[0]) + Texts(ls[1..])
  }

  function Print(f: seq<Node>): string { Texts(Lexemes(f)) }

  function NoGaps(n: nat): (gaps: seq<string>)
    ensures |gaps| == n && forall i :: 0 <= i < n ==> gaps[i] == ""
  {
    seq(n, _ => "")
  }

  lemma {:induction false} TextsAreSpread(ls: seq<Lexeme>, gaps: seq<string>)
    requires |gaps| == |ls| + 1
    ensures |Texts(ls)| <= |Spread(ls, gaps)|
    ensures (forall i :: 0 <= i < |gaps| ==> gaps[i] == "") ==> Texts(ls) == Spread(ls, gaps)
  {
    hide Text;
    if ls != [] {
      TextsAreSpread(ls[1..], gaps[1..]);
      if gaps[0] == "" { assert gaps[0] + Text(ls[0]) == Text(ls[0]); }
    }
  }

  /** No character below a blank occurs in the print of words that fit, so no NUL does. */
  lemma {:induction false} EscapedIsVisible(text: string)
    requires forall c <- text :: c >= ' '
    ensures '\0' !in Escaped(text)
  {
    if text != [] {
      assert text[0] in text && forall c <- text[1..] :: c in text;
      EscapedIsVisible(text[1..]);
    }
  }

  lemma {:induction false} TextsConcatenate(a: seq<Lexeme>, b: seq<Lexeme>)
    ensures Texts(a + b) == Texts(a) + Texts(b)
  {
    hide Text;
    if a == [] {
      assert a + b == b;
    } else {
      assert (a + b)[0] == a[0] && (a + b)[1..] == a[1..] + b;
      TextsConcatenate(a[1..], b);
    }
  }

  lemma {:induction false} LexemesAreVisible(f: seq<Node>)
    requires FitWords(f)
    ensures forall l <- Lexemes(f) :: l.Word? ==> FitWord(l.text)
    decreases f
  {
    hide FitWord;
    if f != [] {
      LexemesAreVisible(f[1..]);
      if f[0].Object? { LexemesAreVisible(f[0].children); }
      assert forall l <- NodeLexemes(f[0]) :: l.Word? ==> FitWord(l.text);
    }
  }

  lemma {:induction false} TextsAreVisible(ls: seq<Lexeme>)
    requires forall l <- ls :: l.Word? ==> FitWord(l.text)
    ensures '\0' !in Texts(ls)
  {
    if ls != [] {
      assert ls[0] in ls && forall l <- ls[1..] :: l in ls;
      TextsAreVisible(ls[1..]);
      if ls[0].Word? { EscapedIsVisible(ls[0].text); }
      hide Texts, Escaped, FitWord;
      assert '\0' !in Text(ls[0]);
    }
  }

  /** A forest within the limits parses back from its print exactly when it has a node and the
      print is not too long. */
  lemma PrintParses(f: seq<Node>)
    requires Within(f, 0, 0)
    ensures Parse(Print(f)) == Some(f) <==> f != [] && |Print(f)| <= MAXIMUM_BYTES
  {
    var gaps := NoGaps(|Lexemes(f)| + 1);
    TextsAreSpread(Lexemes(f), gaps);
    assert GapsFit(gaps);
    RoundTrip(f, gaps);
    LexemesAreVisible(f);
    TextsAreVisible(Lexemes(f));
    if f != [] { assert Text(Lexemes(f)[0]) != ""; }
    hide Within, Parse, Spread, FitWord;
  }

  /** Whatever was accepted and holds a node prints to a text no longer than the one it came from,
      and that text parses to the same nodes. */
  lemma ReprintIsNoLonger(input: string, f: seq<Node>)
    requires Parse(input) == Some(f) && f != []
    ensures |Print(f)| <= |input| && Parse(Print(f)) == Some(f)
  {
    ParseExact(input, f);
    hide Parse, Lex, Within, Lexemes;
    var gaps := LexedWasSpread(Body(input));
    TextsAreSpread(Lexemes(f), gaps);
    PrintParses(f);
  }
}
