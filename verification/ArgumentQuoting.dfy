/** The Windows argument quoter, and the rules by which Windows splits a command line. */
module ArgumentQuoting {
  const QUOTE: char := '\"'
  const BACKSLASH: char := '\\'

  function Slashes(n: nat): (s: string)
    ensures |s| == n && forall i :: 0 <= i < n ==> s[i] == BACKSLASH
  {
    seq(n, _ => BACKSLASH)
  }

  /** What is still to be written when `value` is left and `n` backslashes are held back. */
  function QuotedTail(value: string, n: nat): string
    decreases |value|
  {
    if value == [] then Slashes(2 * n) + [QUOTE]
    else if value[0] == BACKSLASH then QuotedTail(value[1..], n + 1)
    else if value[0] == QUOTE then Slashes(2 * n) + [BACKSLASH] + [QUOTE] + QuotedTail(value[1..], 0)
    else Slashes(n) + [value[0]] + QuotedTail(value[1..], 0)
  }

  function Quoted(value: string): string { [QUOTE] + QuotedTail(value, 0) }

  // ---- how Windows splits ----

  predicate Blank(c: char) { c == ' ' || c == '\t' }

  datatype Split = Split(arg: string, rest: string)

  function Before(prefix: string, s: Split): Split { Split(prefix + s.arg, s.rest) }

  /** The rest of one argument, with `n` backslashes pending. An even number of them before a quote
      stand for half as many and the quote delimits; an odd number also makes the quote a plain
      character; others stand for themselves. With `doubled`, two quotes inside quotes stand for one. */
  function Argument(s: string, quoted: bool, n: nat, doubled: bool): (r: Split)
    ensures |r.rest| <= |s|
    decreases |s|
  {
    if s == [] then Split(Slashes(n), [])
    else if s[0] == BACKSLASH then Argument(s[1..], quoted, n + 1, doubled)
    else if s[0] == QUOTE then
      if n % 2 == 1 then Before(Slashes(n / 2) + [QUOTE], Argument(s[1..], quoted, 0, doubled))
      else if doubled && quoted && |s| > 1 && s[1] == QUOTE then
        Before(Slashes(n / 2) + [QUOTE], Argument(s[2..], quoted, 0, doubled))
      else Before(Slashes(n / 2), Argument(s[1..], !quoted, 0, doubled))
    else if !quoted && Blank(s[0]) then Split(Slashes(n), s)
    else Before(Slashes(n) + [s[0]], Argument(s[1..], quoted, 0, doubled))
  }

  function Arguments(s: string, doubled: bool): seq<string>
    decreases |s|
  {
    if s == [] then []
    else if Blank(s[0]) then Arguments(s[1..], doubled)
    else
      var r := Argument(s, false, 0, doubled);
      assert |r.rest| < |s| by { ArgumentAdvances(s, doubled); }
      [r.arg] + Arguments(r.rest, doubled)
  }

  lemma ArgumentAdvances(s: string, doubled: bool)
    requires s != [] && !Blank(s[0])
    ensures |Argument(s, false, 0, doubled).rest| < |s|
  {
  }

  function Joined(words: seq<string>): string {
    if words == [] then [] else if |words| == 1 then words[0] else words[0] + " " + Joined(words[1..])
  }

  function QuotedAll(values: seq<string>): (r: seq<string>)
    ensures |r| == |values| && forall i :: 0 <= i < |values| ==> r[i] == Quoted(values[i])
  {
    seq(|values|, i requires 0 <= i < |values| => Quoted(values[i]))
  }

  // ---- quoting is undone by splitting ----

  lemma {:induction false} SlashesPend(k: nat, s: string, quoted: bool, n: nat, doubled: bool)
    ensures Argument(Slashes(k) + s, quoted, n, doubled) == Argument(s, quoted, n + k, doubled)
    decreases k
  {
    if k == 0 {
      assert Slashes(k) + s == s;
    } else {
      assert (Slashes(k) + s)[0] == BACKSLASH && (Slashes(k) + s)[1..] == Slashes(k - 1) + s;
      SlashesPend(k - 1, s, quoted, n + 1, doubled);
    }
  }

  /** Outside quotes nothing of `t` belongs to the argument before it. */
  predicate Ends(t: string) { t == [] || Blank(t[0]) }

  lemma TailOfQuote(value: string, n: nat, t: string)
    requires value != [] && value[0] == QUOTE
    ensures QuotedTail(value, n) + t == Slashes(2 * n) + ([BACKSLASH, QUOTE] + (QuotedTail(value[1..], 0) + t))
  {
    hide Slashes;
    var rest := QuotedTail(value[1..], 0);
    assert Slashes(2 * n) + [BACKSLASH] + [QUOTE] + rest + t == Slashes(2 * n) + ([BACKSLASH, QUOTE] + (rest + t));
  }

  lemma TailOfPlain(value: string, n: nat, t: string)
    requires value != [] && value[0] != QUOTE && value[0] != BACKSLASH
    ensures QuotedTail(value, n) + t == Slashes(n) + ([value[0]] + (QuotedTail(value[1..], 0) + t))
  {
    hide Slashes;
    var rest := QuotedTail(value[1..], 0);
    assert Slashes(n) + [value[0]] + rest + t == Slashes(n) + ([value[0]] + (rest + t));
  }

  lemma SlashesMove(value: string, n: nat)
    requires value != []
    ensures value[0] == BACKSLASH ==> Slashes(n + 1) + value[1..] == Slashes(n) + value
    ensures Slashes(n) + [value[0]] + (Slashes(0) + value[1..]) == Slashes(n) + value
  {
    assert Slashes(n + 1) == Slashes(n) + [BACKSLASH] && Slashes(0) == [];
    assert value == [value[0]] + value[1..];
  }

  lemma {:induction false} TailSplits(value: string, n: nat, t: string, doubled: bool)
    requires Ends(t)
    ensures Argument(QuotedTail(value, n) + t, true, 0, doubled) == Split(Slashes(n) + value, t)
    decreases |value|
  {
    hide Slashes, Argument;
    if value == [] {
      LastQuote(n, t, doubled);
    } else if value[0] == BACKSLASH {
      TailSplits(value[1..], n + 1, t, doubled);
      SlashesMove(value, n);
    } else {
      hide QuotedTail;
      TailSplits(value[1..], 0, t, doubled);
      SlashesMove(value, n);
      if value[0] == QUOTE {
        EscapedQuote(n, QuotedTail(value[1..], 0) + t, doubled);
        TailOfQuote(value, n, t);
      } else {
        PlainChar(value[0], n, QuotedTail(value[1..], 0) + t, doubled);
        TailOfPlain(value, n, t);
      }
    }
  }

  lemma LastQuote(n: nat, t: string, doubled: bool)
    requires Ends(t)
    ensures Argument(QuotedTail([], n) + t, true, 0, doubled) == Split(Slashes(n) + [], t)
  {
    var s := [QUOTE] + t;
    assert QuotedTail([], n) + t == Slashes(2 * n) + s;
    SlashesPend(2 * n, s, true, 0, doubled);
    assert s[1..] == t && Slashes(n) + Slashes(0) == Slashes(n) + [];
  }

  lemma EscapedQuote(n: nat, rest: string, doubled: bool)
    ensures Argument(Slashes(2 * n) + ([BACKSLASH, QUOTE] + rest), true, 0, doubled)
            == Before(Slashes(n) + [QUOTE], Argument(rest, true, 0, doubled))
  {
    var s := [BACKSLASH, QUOTE] + rest;
    SlashesPend(2 * n, s, true, 0, doubled);
    assert s[1..] == [QUOTE] + rest && ([QUOTE] + rest)[1..] == rest;
    assert (2 * n + 1) / 2 == n;
  }

  lemma PlainChar(c: char, n: nat, rest: string, doubled: bool)
    requires c != BACKSLASH && c != QUOTE
    ensures Argument(Slashes(n) + ([c] + rest), true, 0, doubled)
            == Before(Slashes(n) + [c], Argument(rest, true, 0, doubled))
  {
    var s := [c] + rest;
    SlashesPend(n, s, true, 0, doubled);
    assert s[1..] == rest;
  }

  lemma QuotedSplits(value: string, t: string, doubled: bool)
    requires Ends(t)
    ensures Argument(Quoted(value) + t, false, 0, doubled) == Split(value, t)
  {
    var s := Quoted(value) + t;
    assert s[0] == QUOTE && s[1..] == QuotedTail(value, 0) + t;
    TailSplits(value, 0, t, doubled);
    assert Slashes(0) + (Slashes(0) + value) == value;
  }

  /** For every list of strings, splitting the joined quoted forms gives the list back. */
  lemma {:induction false} QuotingRoundTrip(values: seq<string>, doubled: bool)
    ensures Arguments(Joined(QuotedAll(values)), doubled) == values
  {
    hide Argument, QuotedTail, Slashes;
    if values != [] {
      var line, value, rest := Joined(QuotedAll(values)), values[0], values[1..];
      var t := if rest == [] then [] else " " + Joined(QuotedAll(rest));
      assert QuotedAll(values)[1..] == QuotedAll(rest);
      assert line == Quoted(value) + t;
      QuotedSplits(value, t, doubled);
      assert line[0] == QUOTE;
      if rest != [] { assert t[1..] == Joined(QuotedAll(rest)); }
      QuotingRoundTrip(rest, doubled);
      assert values == [value] + rest;
    }
  }

  // ---- the quoter ----

  method QuoteArgument(value: string) returns (out: string)
    ensures out == Quoted(value)
  {
    out := [QUOTE];
    var slashes := 0;
    for i := 0 to |value|
      invariant out + QuotedTail(value[i..], slashes) == Quoted(value)
    {
      ghost var before, held := out, slashes;
      var c := value[i];
      assert value[i..][0] == c && value[i..][1..] == value[i + 1..];
      if c == BACKSLASH {
        slashes := slashes + 1;
      } else {
        out := out + Slashes(slashes * (if c == QUOTE then 2 else 1));
        if c == QUOTE { out := out + [BACKSLASH]; }
        out := out + [c];
        slashes := 0;
        assert out + QuotedTail(value[i + 1..], 0) == before + QuotedTail(value[i..], held);
      }
    }
    out := out + Slashes(slashes * 2);
    out := out + [QUOTE];
  }
}
