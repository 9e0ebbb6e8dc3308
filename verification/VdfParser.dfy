/** The parser as it runs: a cursor and a word count that move over the input. */
module VdfParser {
  import opened Common
  import opened Vdf
  import opened VdfGrammar

  class Parser {
    const input: string
    var at: nat
    var words: nat

    ghost predicate Valid()
      reads this
    {
      at <= |input|
    }

    ghost function Ahead(): string
      reads this
      requires Valid()
    {
      input[at..]
    }

    constructor (input: string)
      ensures Valid() && this.input == input && at == 0 && words == 0
    {
      this.input, at, words := input, 0, 0;
    }

    method SkipBlanks()
      requires Valid()
      modifies this`at
      ensures Valid() && old(at) <= at && Skip(Ahead()) == Skip(old(Ahead()))
      ensures Ahead() == "" || !Blank(Ahead()[0])
    {
      while at < |input| && Blank(input[at])
        invariant old(at) <= at <= |input|
        invariant Skip(Ahead()) == Skip(old(Ahead()))
      {
        assert Ahead()[1..] == input[at + 1..];
        at := at + 1;
      }
    }

    method SkipLine()
      requires Valid()
      modifies this`at
      ensures Valid() && old(at) <= at && Ahead() == DropLine(old(Ahead()))
      ensures old(at) < |input| && input[old(at)] != NEWLINE ==> old(at) < at
    {
      while at < |input| && input[at] != NEWLINE
        invariant old(at) <= at <= |input|
        invariant DropLine(Ahead()) == DropLine(old(Ahead()))
      {
        assert Ahead()[1..] == input[at + 1..];
        at := at + 1;
      }
    }

    /** Moves past blanks and comments. */
    method Space()
      requires Valid()
      modifies this`at
      ensures Valid() && old(at) <= at && Ahead() == Skip(old(Ahead()))
    {
      var more := true;
      while more
        invariant old(at) <= at <= |input|
        invariant Skip(Ahead()) == Skip(old(Ahead()))
        invariant !more ==> Ahead() == Skip(old(Ahead()))
        decreases more, |input| - at
      {
        SkipBlanks();
        if OpensComment(input[at..]) {
          ghost var comment := Ahead();
          CommentLine(comment);
          assert input[at] == comment[0] == '/';
          SkipLine();
        } else {
          more := false;
        }
      }
    }

    lemma CommentLine(s: string)
      requires OpensComment(s)
      ensures DropLine(s) == DropLine(s[2..]) && Skip(s) == Skip(DropLine(s))
    {
      assert s[1..][1..] == s[2..];
    }

    /** One quoted word, or nothing when it is malformed or beyond the limits. */
    method Token() returns (text: Option<string>)
      requires Valid()
      modifies this`at, this`words
      ensures Valid() && old(at) <= at
      ensures var r := TokenAt(old(Ahead()), old(words));
              match text
              case None => r == Unreadable
              case Some(t) => r == Read(t, Ahead()) && words == old(words) + 1
    {
      Space();
      words := words + 1;
      if words > MAXIMUM_WORDS || at == |input| { return None; }
      at := at + 1;
      if input[at - 1] != QUOTE { return None; }
      ghost var start := Ahead();
      assert Skip(old(Ahead()))[1..] == start;
      text := Characters();
    }

    method Characters() returns (text: Option<string>)
      requires Valid()
      modifies this`at
      ensures Valid() && old(at) <= at
      ensures var r := ReadWord(old(Ahead()));
              match text
              case None => r.Unreadable? || !FitWord(r.text)
              case Some(t) => r == Read(t, Ahead()) && FitWord(t)
    {
      var out := "";
      while at < |input|
        invariant old(at) <= at <= |input|
        invariant FitWord(out) && ReadWord(old(Ahead())) == Extended(out, ReadWord(Ahead()))
      {
        ghost var s := Ahead();
        var c := input[at];
        at := at + 1;
        assert s[1..] == Ahead();
        if c == QUOTE { return Some(out); }
        if c == BACKSLASH {
          if at == |input| { return None; }
          c := input[at];
          at := at + 1;
          assert s[2..] == Ahead();
          if c != BACKSLASH && c != QUOTE { return None; }
        }
        assert ReadWord(s) == Prefixed(c, ReadWord(Ahead()));
        ExtendedTwice(out, c, ReadWord(Ahead()));
        if c < ' ' || |out| >= MAXIMUM_WORD {
          return None;
        }
        out := out + [c];
      }
      return None;
    }

    /** `r` with `out` in front of its text. */
    static function Extended(out: string, r: Read): Read {
      if r.Unreadable? then r else Read(out + r.text, r.rest)
    }

    static lemma ExtendedTwice(out: string, c: char, r: Read)
      ensures Extended(out, Prefixed(c, r)) == Extended(out + [c], r)
      ensures (c < ' ' || |out| >= MAXIMUM_WORD) && r.Read? ==> !FitWord(Extended(out + [c], r).text)
    {
      if r.Read? {
        var text := out + [c] + r.text;
        assert out + ([c] + r.text) == text;
        assert text[|out|] == c && text[|out|] in text;
      }
    }

    /** `p` with `nodes` in front of its nodes. */
    static function Behind(nodes: seq<Node>, p: Parsed): Parsed {
      if p.Failed? then p else Parsed(nodes + p.nodes, p.rest, p.words)
    }

    static lemma BehindOneMore(nodes: seq<Node>, n: Node, p: Parsed)
      ensures Behind(nodes, Prepend(n, p)) == Behind(nodes + [n], p)
    {
      if p.Parsed? { assert nodes + ([n] + p.nodes) == nodes + [n] + p.nodes; }
    }

    /** The node at the head of `t`, as a list of one. */
    ghost static function NodeAt(t: string, depth: nat, words: nat): (p: Parsed)
      ensures p.Parsed? ==> |p.nodes| == 1 && |p.rest| < |t|
    {
      var key := TokenAt(t, words);
      if key.Unreadable? then Failed else
        var u := Skip(key.rest);
        if u != [] && u[0] == '{' then
          var inner := Nodes(u[1..], depth + 1, true, words + 1);
          if inner.Failed? then Failed else Parsed([Object(key.text, inner.nodes)], inner.rest, inner.words)
        else
          var value := TokenAt(u, words + 1);
          if value.Unreadable? then Failed else Parsed([Leaf(key.text, value.text)], value.rest, words + 2)
    }

    static lemma NodesStep(s: string, depth: nat, nested: bool, words: nat)
      requires depth <= MAXIMUM_DEPTH && Skip(s) != [] && Skip(s)[0] != '}'
      ensures var n := NodeAt(Skip(s), depth, words);
              Nodes(s, depth, nested, words)
              == if n.Failed? then Failed else Prepend(n.nodes[0], Nodes(n.rest, depth, nested, n.words))
    {
      hide Skip, TokenAt;
    }

    static lemma {:induction false} OutermostReadsAll(s: string, depth: nat, words: nat)
      ensures Nodes(s, depth, false, words).Parsed? ==> Nodes(s, depth, false, words).rest == []
      decreases |s|
    {
      hide Skip, TokenAt;
      var t := Skip(s);
      if depth <= MAXIMUM_DEPTH && t != [] && t[0] != '}' {
        NodesStep(s, depth, false, words);
        var n := NodeAt(t, depth, words);
        if n.Parsed? { OutermostReadsAll(n.rest, depth, n.words); }
      }
    }

    method ReadNode(depth: nat) returns (node: Option<Node>)
      requires Valid() && depth <= MAXIMUM_DEPTH
      modifies this`at, this`words
      ensures Valid() && old(at) <= at
      ensures var n := NodeAt(old(Ahead()), depth, old(words));
              match node
              case None => n == Failed
              case Some(m) => n == Parsed([m], Ahead(), words) && old(at) < at
      decreases |input| - at, 0
    {
      hide Skip, TokenAt, ReadWord, Nodes;
      var key := Token();
      if key.None? { return None; }
      Space();
      ghost var u := Ahead();
      if at < |input| && input[at] == '{' {
        assert u[1..] == input[at + 1..];
        at := at + 1;
        var ok, children := ReadObject(depth + 1, true);
        node := if ok then Some(Object(key.value, children)) else None;
      } else {
        var value := Token();
        node := if value.Some? then Some(Leaf(key.value, value.value)) else None;
      }
    }

    /** The nodes up to the closing brace, or up to the end of the input for the outermost list. */
    method ReadObject(depth: nat, nested: bool) returns (ok: bool, nodes: seq<Node>)
      requires Valid()
      modifies this`at, this`words
      ensures Valid() && old(at) <= at
      ensures ok <==> Nodes(old(Ahead()), depth, nested, old(words)).Parsed?
      ensures ok ==> Nodes(old(Ahead()), depth, nested, old(words)) == Parsed(nodes, Ahead(), words)
      decreases |input| - at, 1
    {
      nodes := [];
      if depth > MAXIMUM_DEPTH { return false, []; }
      hide Skip, TokenAt, ReadWord, NodeAt;
      BehindNothing(Nodes(Ahead(), depth, nested, words));
      while true
        invariant old(at) <= at <= |input|
        invariant Nodes(old(Ahead()), depth, nested, old(words)) == Behind(nodes, Nodes(Ahead(), depth, nested, words))
        decreases |input| - at
      {
        ghost var s, w, out := Ahead(), words, nodes;
        Space();
        if at == |input| { return !nested, nodes; }
        if input[at] == '}' {
          assert Skip(s)[0] == '}' && Skip(s)[1..] == input[at + 1..];
          at := at + 1;
          return nested, nodes;
        }
        NodesStep(s, depth, nested, w);
        hide Nodes;
        var node := ReadNode(depth);
        if node.None? { return false, nodes; }
        nodes := nodes + [node.value];
        BehindOneMore(out, node.value, Nodes(Ahead(), depth, nested, words));
      }
    }

    static lemma BehindNothing(p: Parsed)
      ensures Behind([], p) == p
    {
      if p.Parsed? { assert [] + p.nodes == p.nodes; }
    }

    method ReadInput() returns (result: Option<seq<Node>>)
      requires at == 0 && words == 0
      modifies this`at, this`words
      ensures result == Parse(input)
    {
      hide Nodes;
      if input == "" || |input| > MAXIMUM_BYTES || '\0' in input { return None; }
      if StartsWith(input, MARK) { at := 3; }
      assert Ahead() == Body(input);
      OutermostReadsAll(Body(input), 0, 0);
      var ok, nodes := ReadObject(0, false);
      assert ok ==> (Ahead() == [] <==> at == |input|);
      result := if ok && at == |input| then Some(nodes) else None;
    }
  }

  /** The only node with the key, if exactly one has it. */
  method Member(nodes: seq<Node>, key: string) returns (result: Option<Node>)
    ensures result.Some? <==> exists i :: 0 <= i < |nodes| && nodes[i].key == key
                                          && forall j :: 0 <= j < |nodes| && nodes[j].key == key ==> j == i
    ensures result.Some? ==> result.value in nodes && result.value.key == key
  {
    result := None;
    ghost var found := 0;
    for i := 0 to |nodes|
      invariant result.None? ==> forall j :: 0 <= j < i ==> nodes[j].key != key
      invariant result.Some? ==> found < i && nodes[found] == result.value && nodes[found].key == key
      invariant result.Some? ==> forall j :: 0 <= j < i && nodes[j].key == key ==> j == found
    {
      if nodes[i].key == key {
        if result.Some? { return None; }
        result, found := Some(nodes[i]), i;
      }
    }
  }
}
