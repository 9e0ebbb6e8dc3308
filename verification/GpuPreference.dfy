/** The value that records which graphics adapter a program prefers: its strict parser, the rewriter
    that keeps every other token, and what rewriting preserves. */
module GpuPreference {
  import opened Common

  const MAXIMUM_CHARACTERS: nat := 4096
  const MAXIMUM_TOKENS: nat := 64

  datatype Status = Ok | InvalidPreference | MalformedValue | ValueTooLarge

  /** One token: key, value, and whether a semicolon follows. */
  datatype Item = Item(key: string, value: string, delimited: bool)

  // ---- tokens ----

  function Fold(c: char): char { if 'A' <= c <= 'Z' then (c as int + 32) as char else c }

  function Folded(s: string): (f: string)
    ensures |f| == |s| && forall i :: 0 <= i < |s| ==> f[i] == Fold(s[i])
  {
    seq(|s|, i requires 0 <= i < |s| => Fold(s[i]))
  }

  predicate KeyEqual(a: string, b: string) { Folded(a) == Folded(b) }

  predicate KeyChar(c: char) { 'a' <= c <= 'z' || 'A' <= c <= 'Z' || '0' <= c <= '9' || c == '_' }
  predicate ValueChar(c: char) { c >= ' ' && c as int != 127 && c != ';' && c != '=' }

  predicate ValidKey(s: string) { s != "" && forall i :: 0 <= i < |s| ==> KeyChar(s[i]) }
  predicate ValidValue(s: string) { s != "" && forall i :: 0 <= i < |s| ==> ValueChar(s[i]) }

  function GpuKey(): string { "GpuPreference" }

  predicate IsGpu(item: Item) { KeyEqual(item.key, GpuKey()) }

  predicate ValidSetting(s: string) { |s| == 1 && '0' <= s[0] <= '2' }

  predicate ValidItem(item: Item) {
    ValidKey(item.key) && ValidValue(item.value) && (IsGpu(item) ==> ValidSetting(item.value))
  }

  function Text(item: Item): (t: string)
    ensures |t| == |item.key| + 1 + |item.value| + (if item.delimited then 1 else 0)
  {
    item.key + "=" + item.value + (if item.delimited then ";" else "")
  }

  function Texts(items: seq<Item>): string {
    if items == [] then "" else Text(items[0]) + Texts(items[1..])
  }

  predicate Distinct(items: seq<Item>) {
    forall i, j :: 0 <= i < j < |items| ==> !KeyEqual(items[i].key, items[j].key)
  }

  /** All tokens but the last have a delimiter. */
  predicate Delimited(items: seq<Item>) {
    forall i :: 0 <= i < |items| - 1 ==> items[i].delimited
  }

  predicate Valid(items: seq<Item>) {
    && |items| <= MAXIMUM_TOKENS
    && (forall item <- items :: ValidItem(item))
    && Distinct(items) && Delimited(items)
  }

  // ---- the parser ----

  /** The token at the head of `s`. */
  function ItemAt(s: string): Option<Item>
    requires s != ""
  {
    var end := IndexOf(s, ';');
    var body := s[..end];
    var equals := IndexOf(body, '=');
    if equals == |body| then None
    else
      var item := Item(body[..equals], body[equals + 1..], end < |s|);
      if ValidItem(item) then Some(item) else None
  }

  predicate KeySeen(items: seq<Item>, key: string) {
    exists i :: 0 <= i < |items| && KeyEqual(items[i].key, key)
  }

  function Scan(s: string, seen: seq<Item>): Option<seq<Item>>
    decreases |s|
  {
    if s == "" then Some(seen)
    else if |seen| == MAXIMUM_TOKENS then None
    else
      var item := ItemAt(s);
      if item.None? || KeySeen(seen, item.value.key) then None
      else if item.value.delimited then Scan(s[IndexOf(s, ';') + 1..], seen + [item.value])
      else Scan("", seen + [item.value])
  }

  datatype Parsed = Rejected(status: Status) | Parsed(items: seq<Item>)

  function Parse(value: string): Parsed {
    if |value| > MAXIMUM_CHARACTERS then Rejected(ValueTooLarge)
    else
      var items := Scan(value, []);
      if items.None? then Rejected(MalformedValue) else Parsed(items.value)
  }

  /** The preference that the tokens record, and whether they record one. */
  function Preference(items: seq<Item>): nat {
    if items == [] then 0
    else if IsGpu(items[0]) && ValidSetting(items[0].value) then items[0].value[0] as int - '0' as int
    else Preference(items[1..])
  }

  predicate Present(items: seq<Item>) { exists i :: 0 <= i < |items| && IsGpu(items[i]) }

  // ---- what keys say ----

  /** Keys are compared without regard to the case of their letters. */
  lemma KeysFold(a: string, b: string)
    ensures KeyEqual(a, b) <==>
            && |a| == |b|
            && forall i :: 0 <= i < |a| ==>
                 || a[i] == b[i]
                 || ('A' <= a[i] <= 'Z' && b[i] as int == a[i] as int + 32)
                 || ('A' <= b[i] <= 'Z' && a[i] as int == b[i] as int + 32)
  {
    var f, g := Folded(a), Folded(b);
    if |a| == |b| {
      forall i | 0 <= i < |a|
        ensures f[i] == g[i] <==> a[i] == b[i] || ('A' <= a[i] <= 'Z' && b[i] as int == a[i] as int + 32)
                                  || ('A' <= b[i] <= 'Z' && a[i] as int == b[i] as int + 32)
      {
        FoldedAlike(a[i], b[i]);
      }
      assert f == g <==> forall i :: 0 <= i < |a| ==> f[i] == g[i];
    }
  }

  lemma FoldedAlike(a: char, b: char)
    ensures Fold(a) == Fold(b) <==> a == b || ('A' <= a <= 'Z' && b as int == a as int + 32)
                                    || ('A' <= b <= 'Z' && a as int == b as int + 32)
  {
  }

  /** The key of the preference, in any case of its letters. */
  lemma KeySpelled(item: Item)
    ensures IsGpu(item) <==>
            && |item.key| == 13
            && forall i :: 0 <= i < 13 ==> item.key[i] == "gpupreference"[i] || item.key[i] == "GPUPREFERENCE"[i]
  {
    var f := Folded(item.key);
    assert Folded(GpuKey()) == "gpupreference" by { KeyFolded(); }
    if |item.key| == 13 {
      forall i | 0 <= i < 13
        ensures f[i] == "gpupreference"[i] <==> item.key[i] == "gpupreference"[i] || item.key[i] == "GPUPREFERENCE"[i]
      {
        LetterFolds(i, item.key[i]);
      }
      assert f == "gpupreference" <==> forall i :: 0 <= i < 13 ==> f[i] == "gpupreference"[i];
    }
  }

  lemma KeyFolded()
    ensures Folded(GpuKey()) == "gpupreference"
  {
    var f := Folded(GpuKey());
    assert |f| == 13 && forall i :: 0 <= i < 13 ==> f[i] == "gpupreference"[i];
  }

  lemma LetterFolds(i: nat, c: char)
    requires i < 13
    ensures Fold(c) == "gpupreference"[i] <==> c == "gpupreference"[i] || c == "GPUPREFERENCE"[i]
  {
  }

  lemma FirstPreference(preference: nat)
    requires 1 <= preference <= 2
    ensures Rewrite("", preference) == Value(if preference == 1 then "GpuPreference=1;" else "GpuPreference=2;")
  {
    assert Scan("", []) == Some([]);
    assert Texts(Replaced([], preference)) == "";
    assert "" + "" + Text(GpuItem(preference, true)) == Text(GpuItem(preference, true));
    assert Text(GpuItem(preference, true)) == if preference == 1 then "GpuPreference=1;" else "GpuPreference=2;";
  }

  // ---- exactly the valid token lists are parsed ----

  lemma {:induction false} IndexOfAbsent(s: string, c: char)
    requires c !in s
    ensures IndexOf(s, c) == |s|
  {
    if s != "" { IndexOfAbsent(s[1..], c); }
  }

  lemma {:induction false} IndexOfFirst(a: string, c: char, t: string)
    requires c !in a
    ensures IndexOf(a + [c] + t, c) == |a|
  {
    var s := a + [c] + t;
    if a == "" {
      assert s[0] == c;
    } else {
      assert s[0] == a[0] && s[1..] == a[1..] + [c] + t;
      IndexOfFirst(a[1..], c, t);
    }
  }

  lemma Body(item: Item)
    requires ValidItem(item)
    ensures var body := item.key + "=" + item.value;
            ';' !in body && '=' !in item.key && IndexOf(body, '=') == |item.key|
  {
    var body := item.key + "=" + item.value;
    forall i | 0 <= i < |item.key| ensures item.key[i] != '=' && item.key[i] != ';' {
      assert KeyChar(item.key[i]);
    }
    forall i | 0 <= i < |item.value| ensures item.value[i] != ';' {
      assert ValueChar(item.value[i]);
    }
    IndexOfFirst(item.key, '=', item.value);
  }

  /** A valid token is read back from the head of a text. */
  lemma ItemReads(item: Item, t: string)
    requires ValidItem(item) && (item.delimited || t == "")
    ensures Text(item) + t != "" && ItemAt(Text(item) + t) == Some(item)
    ensures item.delimited ==> IndexOf(Text(item) + t, ';') < |Text(item) + t|
                               && (Text(item) + t)[IndexOf(Text(item) + t, ';') + 1..] == t
  {
    var body := item.key + "=" + item.value;
    var s := Text(item) + t;
    Body(item);
    hide ValidItem, IndexOf;
    if item.delimited {
      assert s == body + [';'] + t;
      IndexOfFirst(body, ';', t);
    } else {
      assert s == body;
      IndexOfAbsent(body, ';');
    }
    assert s[..|body|] == body;
    assert body[..|item.key|] == item.key && body[|item.key| + 1..] == item.value;
  }

  lemma SplitAt(s: string, i: nat)
    requires i < |s|
    ensures s == s[..i] + [s[i]] + s[i + 1..]
  {
  }

  lemma ItemWasRead(s: string)
    requires s != "" && ItemAt(s).Some?
    ensures var item := ItemAt(s).value;
            && ValidItem(item) && item.delimited == (IndexOf(s, ';') < |s|)
            && s == Text(item) + (if item.delimited then s[IndexOf(s, ';') + 1..] else "")
  {
    hide ValidItem, IndexOf;
    var end := IndexOf(s, ';');
    var body := s[..end];
    SplitAt(body, IndexOf(body, '='));
    if end < |s| { SplitAt(s, end); } else { assert s == body && body + "" == body; }
  }

  lemma KeysApart(seen: seq<Item>, more: seq<Item>)
    requires more != [] && Distinct(seen + more)
    ensures !KeySeen(seen, more[0].key)
  {
    var all := seen + more;
    forall i | 0 <= i < |seen| ensures !KeyEqual(seen[i].key, more[0].key) {
      assert all[i] == seen[i] && all[|seen|] == more[0];
    }
  }

  lemma {:induction false} TextsScan(seen: seq<Item>, more: seq<Item>)
    requires |seen| + |more| <= MAXIMUM_TOKENS && Distinct(seen + more) && Delimited(more)
    requires forall item <- more :: ValidItem(item)
    ensures Scan(Texts(more), seen) == Some(seen + more)
    decreases |more|
  {
    hide ItemAt, KeySeen, Distinct, Text, ValidItem, IndexOf;
    if more == [] {
      assert seen + more == seen;
    } else {
      var rest := more[1..];
      assert more[0] in more && forall item <- rest :: item in more;
      if rest == [] { assert Texts(rest) == ""; }
      ItemReads(more[0], Texts(rest));
      KeysApart(seen, more);
      assert seen + [more[0]] + rest == seen + more;
      TextsScan(seen + [more[0]], rest);
    }
  }

  /** What a scan adds is a valid list whose texts tile the input. */
  lemma {:induction false} ScannedWereTexts(s: string, seen: seq<Item>)
    requires Scan(s, seen).Some? && Distinct(seen) && |seen| <= MAXIMUM_TOKENS
    ensures var items := Scan(s, seen).value;
            && |seen| <= |items| <= MAXIMUM_TOKENS && items[..|seen|] == seen
            && s == Texts(items[|seen|..]) && Distinct(items) && Delimited(items[|seen|..])
            && forall item <- items[|seen|..] :: ValidItem(item)
    decreases |s|
  {
    hide ItemAt, KeySeen, Distinct, Text, ValidItem, IndexOf;
    var items := Scan(s, seen).value;
    if s != "" {
      var item := ItemAt(s).value;
      ItemWasRead(s);
      DistinctOneMore(seen, item);
      var t := if item.delimited then s[IndexOf(s, ';') + 1..] else "";
      ScannedWereTexts(t, seen + [item]);
      assert items[..|seen|] == items[..|seen| + 1][..|seen|];
      assert items[|seen|..] == [item] + items[|seen| + 1..];
      assert items[|seen|..][1..] == items[|seen| + 1..];
      if !item.delimited { EmptyTexts(items[|seen| + 1..]); }
    }
  }

  lemma EmptyTexts(items: seq<Item>)
    requires Texts(items) == ""
    ensures items == []
  {
  }

  lemma DistinctOneMore(seen: seq<Item>, item: Item)
    requires Distinct(seen) && !KeySeen(seen, item.key)
    ensures Distinct(seen + [item])
  {
  }

  /** The parser accepts exactly the texts of valid token lists, and the tokens tile the text. */
  lemma ParseExact(value: string, items: seq<Item>)
    ensures Parse(value) == Parsed(items)
            <==> |value| <= MAXIMUM_CHARACTERS && Valid(items) && value == Texts(items)
  {
    hide Scan, Distinct, Delimited, ValidItem, Texts;
    if Parse(value) == Parsed(items) {
      NothingIsDistinct();
      ScannedWereTexts(value, []);
      assert items[0..] == items;
    }
    if Valid(items) && value == Texts(items) {
      assert [] + items == items;
      TextsScan([], items);
    }
  }

  lemma NothingIsDistinct()
    ensures Distinct([])
  {
  }

  // ---- the rewriter ----

  datatype Rewritten = Failed(status: Status) | Value(text: string)

  function GpuItem(preference: nat, delimited: bool): Item {
    Item(GpuKey(), if preference == 1 then "1" else "2", delimited)
  }

  /** What becomes of a token: a foreign one stays, the GPU token is replaced or dropped. */
  function ReplacedItem(item: Item, preference: nat): seq<Item> {
    if !IsGpu(item) then [item]
    else if preference != 0 then [GpuItem(preference, item.delimited)]
    else []
  }

  function Replaced(items: seq<Item>, preference: nat): seq<Item> {
    if items == [] then [] else ReplacedItem(items[0], preference) + Replaced(items[1..], preference)
  }

  function RewriteText(items: seq<Item>, preference: nat): string {
    var kept := Texts(Replaced(items, preference));
    if Present(items) || preference == 0 then kept
    else
      kept + (if kept != "" && kept[|kept| - 1] != ';' then ";" else "") + Text(GpuItem(preference, true))
  }

  function Rewrite(value: string, preference: nat): Rewritten {
    if preference > 2 then Failed(InvalidPreference)
    else match Parse(value)
      case Rejected(status) => Failed(status)
      case Parsed(items) =>
        var text := RewriteText(items, preference);
        if |text| > MAXIMUM_CHARACTERS then Failed(ValueTooLarge) else Value(text)
  }

  /** The tokens with a delimiter behind the last one. */
  function Closed(items: seq<Item>): (r: seq<Item>)
    ensures |r| == |items|
    ensures forall i :: 0 <= i < |items| ==> r[i] == items[i] || r[i] == items[i].(delimited := true)
    ensures Delimited(items) ==> forall i :: 0 <= i < |items| ==> r[i] == items[i].(delimited := true)
  {
    if items == [] then [] else items[|items| - 1 := items[|items| - 1].(delimited := true)]
  }

  /** The tokens of a rewritten value. */
  function RewrittenItems(items: seq<Item>, preference: nat): seq<Item> {
    if Present(items) || preference == 0 then Replaced(items, preference)
    else Closed(items) + [GpuItem(preference, true)]
  }

  /** The key and value of every token that is not the GPU token. */
  function Others(items: seq<Item>): seq<(string, string)> {
    if items == [] then []
    else (if IsGpu(items[0]) then [] else [(items[0].key, items[0].value)]) + Others(items[1..])
  }

  lemma {:induction false} NothingReplaced(items: seq<Item>, preference: nat)
    requires !Present(items)
    ensures Replaced(items, preference) == items
  {
    if items != [] {
      assert !IsGpu(items[0]);
      forall i | 0 <= i < |items[1..]| ensures !IsGpu(items[1..][i]) { assert items[1..][i] == items[i + 1]; }
      NothingReplaced(items[1..], preference);
    }
  }

  lemma {:induction false} TextsConcatenate(a: seq<Item>, b: seq<Item>)
    ensures Texts(a + b) == Texts(a) + Texts(b)
  {
    hide Text;
    if a == [] {
      assert a + b == b;
    } else {
      assert (a + b)[0] == a[0] && (a + b)[1..] == a[1..] + b;
      TextsConcatenate(a[1..], b);
    }
  }

  lemma TextsOfOne(item: Item)
    ensures Texts([item]) == Text(item)
  {
    assert [item][1..] == [];
  }

  lemma LastText(items: seq<Item>)
    requires items != [] && ValidItem(items[|items| - 1])
    ensures var last := items[|items| - 1];
            Texts(items) != "" && (Texts(items)[|Texts(items)| - 1] == ';' <==> last.delimited)
  {
    var n := |items| - 1;
    assert items == items[..n] + [items[n]];
    TextsConcatenate(items[..n], [items[n]]);
    TextsOfOne(items[n]);
    TextEnds(items[n]);
  }

  lemma TextEnds(item: Item)
    requires ValidItem(item)
    ensures Text(item)[|Text(item)| - 1] == ';' <==> item.delimited
  {
    assert ValueChar(item.value[|item.value| - 1]);
  }

  lemma TextsOneMore(items: seq<Item>, item: Item)
    ensures Texts(items + [item]) == Texts(items) + Text(item)
  {
    TextsConcatenate(items, [item]);
    TextsOfOne(item);
  }

  lemma ClosedIsLast(items: seq<Item>, last: Item)
    ensures Closed(items + [last]) == items + [last.(delimited := true)]
  {
  }

  /** Closing a list adds the delimiter that its text lacks. */
  lemma ClosedText(items: seq<Item>)
    requires forall item <- items :: ValidItem(item)
    ensures var text := Texts(items);
            Texts(Closed(items)) == text + (if text != "" && text[|text| - 1] != ';' then ";" else "")
  {
    hide ValidItem, Text, Closed, Texts;
    if items == [] {
      NothingClosed();
    } else {
      var n := |items| - 1;
      var init, last := items[..n], items[n];
      LastText(items);
      assert items == init + [last];
      ClosedIsLast(init, last);
      TextsOneMore(init, last);
      TextsOneMore(init, last.(delimited := true));
      ClosedOne(last);
      Associate(Texts(init), Text(last), if last.delimited then "" else ";");
    }
  }

  lemma Associate(a: string, b: string, c: string)
    ensures a + (b + c) == a + b + c
  {
  }

  lemma NothingClosed()
    ensures Texts([]) == "" && Closed([]) == [] && "" + "" == ""
  {
  }

  lemma ClosedOne(item: Item)
    ensures Text(item.(delimited := true)) == Text(item) + (if item.delimited then "" else ";")
  {
    var body := item.key + "=" + item.value;
    assert body + ";" + "" == body + ";" && body + "" + ";" == body + ";";
  }

  /** The rewritten text is the text of the rewritten tokens. */
  lemma RewriteWritesItems(items: seq<Item>, preference: nat)
    requires forall item <- items :: ValidItem(item)
    ensures RewriteText(items, preference) == Texts(RewrittenItems(items, preference))
  {
    hide ValidItem, Text, GpuItem, Texts, Closed;
    if !Present(items) && preference != 0 {
      NothingReplaced(items, preference);
      ClosedText(items);
      TextsConcatenate(Closed(items), [GpuItem(preference, true)]);
      TextsOfOne(GpuItem(preference, true));
    }
  }

  // ---- rewritten tokens are valid ----

  lemma GpuItemIsValid(preference: nat, delimited: bool)
    requires 1 <= preference <= 2
    ensures ValidItem(GpuItem(preference, delimited)) && IsGpu(GpuItem(preference, delimited))
    ensures GpuItem(preference, delimited).value[0] as int - '0' as int == preference
  {
    var item := GpuItem(preference, delimited);
    assert ValidKey(GpuKey());
    assert ValidValue(item.value);
  }

  /** Token `i` of the replaced ones stems from token `origin[i]`, in the same order. */
  predicate Stems(items: seq<Item>, preference: nat, r: seq<Item>, origin: seq<nat>) {
    && |origin| == |r| <= |items|
    && (forall i :: 0 <= i < |r| ==> origin[i] < |items| && [r[i]] == ReplacedItem(items[origin[i]], preference))
    && (forall i, j :: 0 <= i < j < |r| ==> origin[i] < origin[j])
  }

  function Later(origin: seq<nat>): (l: seq<nat>)
    ensures |l| == |origin| && forall i :: 0 <= i < |l| ==> l[i] == origin[i] + 1
  {
    seq(|origin|, i requires 0 <= i < |origin| => origin[i] + 1)
  }

  lemma StemsDropped(item: Item, rest: seq<Item>, preference: nat, r: seq<Item>, origin: seq<nat>)
    requires Stems(rest, preference, r, origin)
    ensures Stems([item] + rest, preference, r, Later(origin))
  {
    hide ReplacedItem, Later;
    var all, later := [item] + rest, Later(origin);
    assert forall i :: 0 <= i < |r| ==> later[i] == origin[i] + 1 && all[later[i]] == rest[origin[i]];
  }

  lemma StemsKept(item: Item, rest: seq<Item>, preference: nat, r: seq<Item>, origin: seq<nat>, first: Item)
    requires Stems(rest, preference, r, origin) && ReplacedItem(item, preference) == [first]
    ensures Stems([item] + rest, preference, [first] + r, [0] + Later(origin))
  {
    hide ReplacedItem, Later;
    var all, later, kept := [item] + rest, Later(origin), [first] + r;
    assert forall i :: 0 <= i < |r| ==> later[i] == origin[i] + 1 && all[later[i]] == rest[origin[i]];
    forall i | 0 <= i < |kept| ensures [kept[i]] == ReplacedItem(all[([0] + later)[i]], preference) {
      if i > 0 { assert kept[i] == r[i - 1] && ([0] + later)[i] == later[i - 1]; }
    }
  }

  lemma StemsOneMore(item: Item, rest: seq<Item>, preference: nat, r: seq<Item>,
                origin: seq<nat>) returns (more: seq<nat>)
    requires Stems(rest, preference, r, origin)
    ensures Stems([item] + rest, preference, ReplacedItem(item, preference) + r, more)
  {
    OneForOne(item, preference);
    var first := ReplacedItem(item, preference);
    hide ReplacedItem, Stems, Later;
    if first == [] {
      more := Later(origin);
      StemsDropped(item, rest, preference, r, origin);
      assert first + r == r;
    } else {
      more := [0] + Later(origin);
      assert first == [first[0]];
      StemsKept(item, rest, preference, r, origin, first[0]);
    }
  }

  lemma OneForOne(item: Item, preference: nat)
    ensures |ReplacedItem(item, preference)| <= 1
  {
  }

  lemma {:induction false} ReplacedComeFrom(items: seq<Item>, preference: nat) returns (origin: seq<nat>)
    ensures Stems(items, preference, Replaced(items, preference), origin)
  {
    hide ReplacedItem;
    if items == [] {
      origin := [];
    } else {
      var rest := ReplacedComeFrom(items[1..], preference);
      hide Stems;
      origin := StemsOneMore(items[0], items[1..], preference, Replaced(items[1..], preference), rest);
      assert items == [items[0]] + items[1..];
    }
  }

  lemma ReplacedItemFacts(item: Item, preference: nat, r: Item)
    requires preference <= 2 && ValidItem(item) && [r] == ReplacedItem(item, preference)
    ensures ValidItem(r) && KeyEqual(r.key, item.key) && r.delimited == item.delimited
    ensures IsGpu(r) <==> IsGpu(item)
    ensures if IsGpu(item) then preference != 0 && r == GpuItem(preference, item.delimited) else r == item
  {
    if IsGpu(item) { GpuItemIsValid(preference, item.delimited); }
    assert [r][0] == r;
    hide ValidItem, GpuItem, KeyEqual;
  }

  lemma ReplacedAreValid(items: seq<Item>, preference: nat)
    requires preference <= 2 && Valid(items)
    ensures Valid(Replaced(items, preference))
  {
    var r := Replaced(items, preference);
    var origin := ReplacedComeFrom(items, preference);
    hide ValidItem, Replaced, ReplacedItem, KeyEqual;
    forall i | 0 <= i < |r| ensures ValidItem(r[i]) && KeyEqual(r[i].key, items[origin[i]].key)
                                    && r[i].delimited == items[origin[i]].delimited {
      assert items[origin[i]] in items;
      ReplacedItemFacts(items[origin[i]], preference, r[i]);
    }
    forall i, j | 0 <= i < j < |r| ensures !KeyEqual(r[i].key, r[j].key) {
      EqualKeysCompose(r[i].key, items[origin[i]].key, r[j].key, items[origin[j]].key);
    }
    forall i | 0 <= i < |r| - 1 ensures r[i].delimited { assert origin[i] < origin[i + 1]; }
  }

  lemma EqualKeysCompose(a: string, b: string, c: string, d: string)
    requires KeyEqual(a, b) && KeyEqual(c, d)
    ensures KeyEqual(a, c) <==> KeyEqual(b, d)
  {
  }

  lemma ClosedAreValid(items: seq<Item>)
    requires Valid(items)
    ensures Valid(Closed(items)) && forall i :: 0 <= i < |items| ==> Closed(items)[i] == items[i].(delimited := true)
  {
    var r := Closed(items);
    forall i | 0 <= i < |r| ensures ValidItem(r[i]) { assert items[i] in items; }
    hide ValidItem, KeyEqual;
  }

  lemma AbsentKeyIsNew(items: seq<Item>, item: Item)
    requires !Present(items) && IsGpu(item)
    ensures !KeySeen(items, item.key)
  {
    forall i | 0 <= i < |items| ensures !KeyEqual(items[i].key, item.key) { assert !IsGpu(items[i]); }
  }

  lemma AppendedAreValid(items: seq<Item>, preference: nat)
    requires 1 <= preference <= 2 && Valid(items) && !Present(items)
    ensures Valid(RewrittenItems(items, preference)) <==> |items| < MAXIMUM_TOKENS
  {
    var closed, item := Closed(items), GpuItem(preference, true);
    ClosedAreValid(items);
    GpuItemIsValid(preference, true);
    hide ValidItem, KeyEqual, GpuItem, Closed;
    assert forall i :: 0 <= i < |closed| ==> closed[i].key == items[i].key;
    AbsentKeyIsNew(items, item);
    assert !KeySeen(closed, item.key);
    DistinctOneMore(closed, item);
    hide KeySeen, Distinct;
  }

  /** The one exception: a full list of foreign tokens has no room for the GPU token. */
  predicate Overflows(items: seq<Item>, preference: nat) {
    preference != 0 && !Present(items) && |items| == MAXIMUM_TOKENS
  }

  lemma RewrittenAreValid(items: seq<Item>, preference: nat)
    requires preference <= 2 && Valid(items)
    ensures Valid(RewrittenItems(items, preference)) <==> !Overflows(items, preference)
  {
    hide Valid, Replaced, Closed, GpuItem;
    if Present(items) || preference == 0 {
      ReplacedAreValid(items, preference);
    } else {
      AppendedAreValid(items, preference);
      ValidIsSmall(items);
    }
  }

  lemma ValidIsSmall(items: seq<Item>)
    requires Valid(items)
    ensures |items| <= MAXIMUM_TOKENS && forall item <- items :: ValidItem(item)
  {
  }

  // ---- what rewriting keeps ----

  lemma {:induction false} ReplacedOthers(items: seq<Item>, preference: nat)
    requires preference <= 2 && forall item <- items :: ValidItem(item)
    ensures Others(Replaced(items, preference)) == Others(items)
  {
    hide GpuItem, ValidItem, IsGpu;
    if items != [] {
      var item, rest := items[0], items[1..];
      assert item in items && forall x <- rest :: x in items;
      ReplacedOthers(rest, preference);
      var r := ReplacedItem(item, preference);
      if r == [] {
        assert r + Replaced(rest, preference) == Replaced(rest, preference);
        assert [] + Others(rest) == Others(rest);
      } else {
        ReplacedItemFacts(item, preference, r[0]);
        assert (r + Replaced(rest, preference))[1..] == Replaced(rest, preference);
      }
    }
  }

  lemma {:induction false} OthersConcatenate(a: seq<Item>, b: seq<Item>)
    ensures Others(a + b) == Others(a) + Others(b)
  {
    hide IsGpu;
    if a == [] {
      assert a + b == b;
    } else {
      assert (a + b)[0] == a[0] && (a + b)[1..] == a[1..] + b;
      OthersConcatenate(a[1..], b);
    }
  }

  lemma {:induction false} SameOthers(a: seq<Item>, b: seq<Item>)
    requires |a| == |b| && forall i :: 0 <= i < |a| ==> b[i] == a[i].(delimited := true)
    ensures Others(a) == Others(b)
  {
    if a != [] {
      assert forall i :: 0 <= i < |a| - 1 ==> b[1..][i] == a[1..][i].(delimited := true);
      SameOthers(a[1..], b[1..]);
    }
  }

  lemma {:induction false} PreferenceOf(items: seq<Item>, preference: nat, k: nat)
    requires k < |items| && IsGpu(items[k]) && ValidSetting(items[k].value)
    requires items[k].value[0] as int - '0' as int == preference
    requires forall i :: 0 <= i < |items| && i != k ==> !IsGpu(items[i])
    ensures Preference(items) == preference && Present(items)
  {
    hide IsGpu;
    if k > 0 {
      assert forall i :: 0 <= i < |items| - 1 ==> items[1..][i] == items[i + 1];
      PreferenceOf(items[1..], preference, k - 1);
    }
  }

  lemma {:induction false} NoPreference(items: seq<Item>)
    requires !Present(items)
    ensures Preference(items) == 0
  {
    if items != [] {
      assert !IsGpu(items[0]);
      forall i | 0 <= i < |items[1..]| ensures !IsGpu(items[1..][i]) { assert items[1..][i] == items[i + 1]; }
      NoPreference(items[1..]);
    }
  }

  lemma OneGpu(items: seq<Item>, i: nat, j: nat)
    requires Distinct(items) && i < |items| && j < |items| && IsGpu(items[i]) && IsGpu(items[j])
    ensures i == j
  {
    if i < j { assert KeyEqual(items[i].key, items[j].key); }
    if j < i { assert KeyEqual(items[j].key, items[i].key); }
  }

  lemma ReplacedPreference(items: seq<Item>, preference: nat)
    requires preference <= 2 && Valid(items) && (Present(items) || preference == 0)
    ensures Preference(Replaced(items, preference)) == preference
    ensures Present(Replaced(items, preference)) <==> preference != 0
  {
    ReplacedAreValid(items, preference);
    var r := Replaced(items, preference);
    var origin := ReplacedComeFrom(items, preference);
    hide ValidItem, Replaced, ReplacedItem, IsGpu, GpuItem;
    assert forall i :: 0 <= i < |r| ==> items[origin[i]] in items;
    forall i | 0 <= i < |r| && IsGpu(r[i]) ensures preference != 0 && r[i] == GpuItem(preference, r[i].delimited) {
      ReplacedItemFacts(items[origin[i]], preference, r[i]);
    }
    if preference == 0 {
      NoPreference(r);
    } else {
      var k := GpuSurvives(items, preference);
      GpuItemIsValid(preference, r[k].delimited);
      forall i | 0 <= i < |r| && i != k ensures !IsGpu(r[i]) {
        if IsGpu(r[i]) { OneGpu(r, i, k); }
      }
      GpuSetting(r[k]);
      PreferenceOf(r, preference, k);
    }
  }

  lemma GpuSetting(item: Item)
    requires ValidItem(item) && IsGpu(item)
    ensures ValidSetting(item.value)
  {
  }

  lemma {:induction false} GpuSurvives(items: seq<Item>, preference: nat) returns (k: nat)
    requires 1 <= preference <= 2 && Present(items)
    ensures k < |Replaced(items, preference)| && IsGpu(Replaced(items, preference)[k])
  {
    hide GpuItem, IsGpu;
    if IsGpu(items[0]) {
      GpuItemIsValid(preference, items[0].delimited);
      k := 0;
    } else {
      var i :| 0 <= i < |items| && IsGpu(items[i]);
      assert IsGpu(items[1..][i - 1]);
      var j := GpuSurvives(items[1..], preference);
      k := j + 1;
    }
  }

  lemma AppendedPreference(items: seq<Item>, preference: nat)
    requires 1 <= preference <= 2 && Valid(items) && !Present(items)
    ensures var r := RewrittenItems(items, preference);
            Preference(r) == preference && Present(r) && Others(r) == Others(items)
  {
    var closed, item := Closed(items), GpuItem(preference, true);
    ClosedAreValid(items);
    GpuItemIsValid(preference, true);
    GpuSetting(item);
    SameOthers(items, closed);
    OthersConcatenate(closed, [item]);
    assert Others([item]) == [] && Others(closed) + [] == Others(closed);
    hide ValidItem, KeyEqual, GpuItem, Closed, Others, Preference, Distinct;
    var r := closed + [item];
    forall i | 0 <= i < |closed| ensures !IsGpu(r[i]) { assert r[i].key == items[i].key && !IsGpu(items[i]); }
    PreferenceOf(r, preference, |closed|);
  }

  lemma RewrittenMeaning(items: seq<Item>, preference: nat)
    requires preference <= 2 && Valid(items)
    ensures var r := RewrittenItems(items, preference);
            Preference(r) == preference && (Present(r) <==> preference != 0) && Others(r) == Others(items)
  {
    hide Valid, Replaced, Closed, GpuItem, Preference, Others;
    if Present(items) || preference == 0 {
      ReplacedPreference(items, preference);
      ValidIsSmall(items);
      ReplacedOthers(items, preference);
    } else {
      AppendedPreference(items, preference);
    }
  }

  /** A rewritten value parses again exactly when its tokens did not overflow. Then it records the
      preference - in a token of its own exactly when it is not automatic - and all other tokens
      keep their text and order. */
  lemma RewriteKeepsMeaning(value: string, preference: nat)
    requires Rewrite(value, preference).Value?
    ensures Parse(value).Parsed?
    ensures var items := Parse(value).items;
            var again := Parse(Rewrite(value, preference).text);
            && (again.Parsed? <==> !Overflows(items, preference))
            && (again.Parsed? ==>
                  && again.items == RewrittenItems(items, preference)
                  && Preference(again.items) == preference && (Present(again.items) <==> preference != 0)
                  && Others(again.items) == Others(items))
  {
    hide Parse, Valid, RewriteText, RewrittenItems, Preference, Others, Texts;
    var items := Parse(value).items;
    var text, r := RewriteText(items, preference), RewrittenItems(items, preference);
    ParseExact(value, items);
    ValidIsSmall(items);
    RewriteWritesItems(items, preference);
    RewrittenAreValid(items, preference);
    RewrittenMeaning(items, preference);
    ParseExact(text, r);
    if Parse(text).Parsed? {
      ParseExact(text, Parse(text).items);
      OverflowIsMalformed(items, preference, Parse(text).items);
    }
  }

  lemma {:induction false} TextsDetermine(a: seq<Item>, b: seq<Item>)
    requires Delimited(a) && Delimited(b) && Texts(a) == Texts(b)
    requires (forall item <- a :: ValidItem(item)) && forall item <- b :: ValidItem(item)
    ensures a == b
  {
    hide ValidItem, Text, ItemAt, IndexOf;
    if a == [] || b == [] {
      if a != [] { HeadText(a); }
      if b != [] { HeadText(b); }
    } else {
      HeadText(a);
      HeadText(b);
      assert (forall item <- a[1..] :: item in a) && forall item <- b[1..] :: item in b;
      hide Texts;
      if a[0].delimited {
        TextsDetermine(a[1..], b[1..]);
      } else {
        assert a == [a[0]] && b == [b[0]];
      }
    }
  }

  lemma HeadText(items: seq<Item>)
    requires items != [] && Delimited(items) && forall item <- items :: ValidItem(item)
    ensures Texts(items) != "" && ItemAt(Texts(items)) == Some(items[0])
    ensures items[0].delimited ==> IndexOf(Texts(items), ';') < |Texts(items)|
                                   && Texts(items)[IndexOf(Texts(items), ';') + 1..] == Texts(items[1..])
    ensures !items[0].delimited ==> |items| == 1
  {
    hide ValidItem, Text, ItemAt, IndexOf;
    assert items[0] in items;
    if |items| == 1 { assert Texts(items[1..]) == ""; }
    ItemReads(items[0], Texts(items[1..]));
  }

  /** The text of a list that overflows has no other reading that would be short enough. */
  lemma OverflowIsMalformed(items: seq<Item>, preference: nat, read: seq<Item>)
    requires preference <= 2 && Valid(items) && Valid(read)
    requires Texts(RewrittenItems(items, preference)) == Texts(read)
    ensures !Overflows(items, preference)
  {
    if Overflows(items, preference) {
      hide ValidItem, Distinct, Texts;
      var r := RewrittenItems(items, preference);
      ClosedAreValid(items);
      GpuItemIsValid(preference, true);
      assert forall item <- r :: ValidItem(item);
      TextsDetermine(r, read);
    }
  }

  // ---- rewriting twice ----

  lemma {:induction false} ReplacedTwice(items: seq<Item>, p: nat, q: nat)
    requires 1 <= p <= 2 && 1 <= q <= 2
    ensures Replaced(Replaced(items, p), q) == Replaced(items, q)
  {
    hide GpuItem, IsGpu;
    if items != [] {
      var rest := Replaced(items[1..], p);
      ReplacedTwice(items[1..], p, q);
      GpuItemIsValid(p, items[0].delimited);
      GpuItemKeepsDelimiter(p, items[0].delimited);
      var r := ReplacedItem(items[0], p);
      assert Replaced(items, p) == r + rest && r == [r[0]];
      assert (r + rest)[0] == r[0] && (r + rest)[1..] == rest;
    }
  }

  lemma GpuItemKeepsDelimiter(preference: nat, delimited: bool)
    ensures GpuItem(preference, delimited).delimited == delimited
    ensures forall p: nat, q: nat :: |Text(GpuItem(p, delimited))| == |Text(GpuItem(q, delimited))|
  {
  }

  lemma {:induction false} ReplacedLength(items: seq<Item>, p: nat, q: nat)
    requires 1 <= p <= 2 && 1 <= q <= 2
    ensures |Texts(Replaced(items, p))| == |Texts(Replaced(items, q))|
  {
    hide GpuItem, IsGpu, Text;
    if items != [] {
      var x, y := ReplacedItem(items[0], p), ReplacedItem(items[0], q);
      GpuItemKeepsDelimiter(p, items[0].delimited);
      ReplacedLength(items[1..], p, q);
      assert x == [x[0]] && y == [y[0]];
      TextsConcatenate(x, Replaced(items[1..], p));
      TextsConcatenate(y, Replaced(items[1..], q));
      TextsOfOne(x[0]);
      TextsOfOne(y[0]);
    }
  }

  lemma RewrittenTwice(items: seq<Item>, p: nat, q: nat)
    requires 1 <= p <= 2 && 1 <= q <= 2 && Valid(items)
    ensures RewrittenItems(RewrittenItems(items, p), q) == RewrittenItems(items, q)
    ensures |Texts(RewrittenItems(items, p))| == |Texts(RewrittenItems(items, q))|
  {
    var r := RewrittenItems(items, p);
    RewrittenMeaning(items, p);
    hide Valid, GpuItem, Texts, Replaced, Closed, Preference, Others;
    if Present(items) {
      ReplacedTwice(items, p, q);
      ReplacedLength(items, p, q);
    } else {
      AppendedTwice(items, p, q);
    }
  }

  lemma AppendedTwice(items: seq<Item>, p: nat, q: nat)
    requires 1 <= p <= 2 && 1 <= q <= 2 && Valid(items) && !Present(items)
    ensures Replaced(Closed(items) + [GpuItem(p, true)], q) == Closed(items) + [GpuItem(q, true)]
    ensures |Texts(Closed(items) + [GpuItem(p, true)])| == |Texts(Closed(items) + [GpuItem(q, true)])|
  {
    var closed := Closed(items);
    ClosedAreValid(items);
    GpuItemIsValid(p, true);
    GpuItemKeepsDelimiter(p, true);
    TextsOneMore(closed, GpuItem(p, true));
    TextsOneMore(closed, GpuItem(q, true));
    forall i | 0 <= i < |closed| ensures !IsGpu(closed[i]) { assert closed[i].key == items[i].key && !IsGpu(items[i]); }
    NothingReplaced(closed, q);
    ReplacedConcatenates(closed, [GpuItem(p, true)], q);
    hide Valid, GpuItem, Texts, IsGpu, Closed;
    ReplacedOne(GpuItem(p, true), q);
  }

  lemma ReplacedOne(item: Item, q: nat)
    requires IsGpu(item) && q != 0
    ensures Replaced([item], q) == [GpuItem(q, item.delimited)]
  {
    hide IsGpu;
    assert [item][1..] == [];
  }

  lemma {:induction false} ReplacedConcatenates(a: seq<Item>, b: seq<Item>, q: nat)
    ensures Replaced(a + b, q) == Replaced(a, q) + Replaced(b, q)
  {
    hide ReplacedItem;
    if a == [] {
      assert a + b == b;
    } else {
      assert (a + b)[0] == a[0] && (a + b)[1..] == a[1..] + b;
      ReplacedConcatenates(a[1..], b, q);
    }
  }

  /** A second rewrite makes the first one undone, character for character - so rewriting is
      idempotent - exactly when the first did not overflow. */
  lemma RewriteAbsorbs(value: string, p: nat, q: nat)
    requires 1 <= p <= 2 && 1 <= q <= 2 && Rewrite(value, p).Value?
    ensures Parse(value).Parsed?
    ensures Rewrite(Rewrite(value, p).text, q) == Rewrite(value, q) <==> !Overflows(Parse(value).items, p)
  {
    hide Parse, Valid, RewriteText, RewrittenItems, Texts, Overflows, Preference, Others;
    var items := Parse(value).items;
    RewriteKeepsMeaning(value, p);
    ParseExact(value, items);
    ValidIsSmall(items);
    RewriteWritesItems(items, p);
    RewriteWritesItems(items, q);
    RewrittenTwice(items, p, q);
    RewrittenAreValid(items, p);
    if !Overflows(items, p) {
      ValidIsSmall(RewrittenItems(items, p));
      RewriteWritesItems(RewrittenItems(items, p), q);
    }
  }

  /** Rewriting twice means the same as rewriting once, also where the preference is automatic. */
  lemma RewriteTwiceMeansOnce(value: string, p: nat, q: nat)
    requires Rewrite(value, p).Value? && Rewrite(Rewrite(value, p).text, q).Value? && Rewrite(value, q).Value?
    ensures var twice, once := Parse(Rewrite(Rewrite(value, p).text, q).text), Parse(Rewrite(value, q).text);
            twice.Parsed? && once.Parsed? ==>
              && Preference(twice.items) == Preference(once.items)
              && (Present(twice.items) <==> Present(once.items))
              && Others(twice.items) == Others(once.items)
  {
    RewriteKeepsMeaning(value, p);
    RewriteKeepsMeaning(Rewrite(value, p).text, q);
    RewriteKeepsMeaning(value, q);
    hide Parse, Rewrite, Preference, Others, Present, RewrittenItems;
  }

  // ---- the exception exists ----

  function Repeated(n: nat): (s: string)
    ensures |s| == n && forall i :: 0 <= i < n ==> s[i] == 'a'
  {
    seq(n, _ => 'a')
  }

  /** `n` foreign tokens with keys of different lengths. */
  function Foreign(n: nat): (items: seq<Item>)
    ensures |items| == n && forall i :: 0 <= i < n ==> items[i] == Item(Repeated(i + 1), "0", true)
  {
    seq(n, i requires 0 <= i < n => Item(Repeated(i + 1), "0", true))
  }

  lemma {:induction false} ForeignLength(n: nat)
    requires n <= MAXIMUM_TOKENS
    ensures |Texts(Foreign(n))| == n * (n + 1) / 2 + 3 * n
  {
    if n > 0 {
      ForeignLength(n - 1);
      assert Foreign(n) == Foreign(n - 1) + [Foreign(n)[n - 1]];
      TextsOneMore(Foreign(n - 1), Foreign(n)[n - 1]);
      assert n * (n + 1) == (n - 1) * n + 2 * n;
    }
  }

  lemma ForeignAreValid(n: nat)
    requires n <= MAXIMUM_TOKENS
    ensures Valid(Foreign(n)) && !Present(Foreign(n))
  {
    var items := Foreign(n);
    forall i | 0 <= i < n ensures ValidItem(items[i]) && !IsGpu(items[i]) {
      assert Folded(items[i].key)[0] == 'a' && Folded(GpuKey())[0] == 'g';
    }
    forall i, j | 0 <= i < j < n ensures !KeyEqual(items[i].key, items[j].key) {
      assert |Folded(items[i].key)| != |Folded(items[j].key)|;
    }
  }

  /** A full value that the rewriter accepts but whose result the parser refuses. */
  lemma FullValueOverflows() returns (value: string)
    ensures Rewrite(value, 1).Value? && Parse(Rewrite(value, 1).text).Rejected?
  {
    var items := Foreign(MAXIMUM_TOKENS);
    value := Texts(items);
    ForeignAreValid(MAXIMUM_TOKENS);
    ForeignLength(MAXIMUM_TOKENS);
    ValidIsSmall(items);
    hide Texts, Foreign, Valid, ValidItem, Parse;
    ParseExact(value, items);
    NothingReplaced(items, 1);
    GpuTextLength();
    hide Text, GpuItem, Replaced;
    assert |RewriteText(items, 1)| <= |value| + 17;
    RewriteKeepsMeaning(value, 1);
  }

  lemma GpuTextLength()
    ensures |Text(GpuItem(1, true))| == 16
  {
  }
}
