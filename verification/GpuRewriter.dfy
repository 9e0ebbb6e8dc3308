/** The parser and the rewriter of the GPU preference as they run, on positions in the value. */
module GpuRewriter {
  import opened Common
  import opened GpuPreference

  /** Where a token begins and ends, and where its key ends. */
  datatype Token = Token(begin: nat, end: nat, keyEnd: nat, delimiter: bool, gpu: bool)

  predicate Inside(value: string, t: Token) {
    t.begin < t.keyEnd && t.keyEnd + 1 < t.end <= |value| && (t.delimiter ==> t.end < |value|)
  }

  function ItemOf(value: string, t: Token): Item
    requires Inside(value, t)
  {
    Item(value[t.begin..t.keyEnd], value[t.keyEnd + 1..t.end], t.delimiter)
  }

  ghost predicate AllInside(value: string, tokens: seq<Token>) {
    forall t <- tokens :: Inside(value, t) && t.gpu == IsGpu(ItemOf(value, t))
                          && value[t.begin..t.end + (if t.delimiter then 1 else 0)] == Text(ItemOf(value, t))
  }

  ghost function ItemsOf(value: string, tokens: seq<Token>): (items: seq<Item>)
    requires AllInside(value, tokens)
    ensures |items| == |tokens|
    ensures forall i :: 0 <= i < |tokens| ==> items[i] == ItemOf(value, tokens[i])
  {
    seq(|tokens|, i requires 0 <= i < |tokens| => ItemOf(value, tokens[i]))
  }

  method KeysEqual(a: string, b: string) returns (equal: bool)
    ensures equal <==> KeyEqual(a, b)
  {
    if |a| != |b| {
      assert |Folded(a)| != |Folded(b)|;
      return false;
    }
    for i := 0 to |a|
      invariant forall j :: 0 <= j < i ==> Fold(a[j]) == Fold(b[j])
    {
      if Fold(a[i]) != Fold(b[i]) {
        assert Folded(a)[i] != Folded(b)[i];
        return false;
      }
    }
    return true;
  }

  lemma {:induction false} IndexOfWithin(s: string, c: char, e: nat)
    requires e <= |s|
    ensures IndexOf(s[..e], c) == if IndexOf(s, c) < e then IndexOf(s, c) else e
  {
    if e > 0 && s[0] != c {
      assert s[..e][1..] == s[1..][..e - 1] && s[..e][0] == s[0];
      IndexOfWithin(s[1..], c, e - 1);
    }
  }

  /** The head of `s` is no token: it ends at `e`, its first equals sign is at `q`, its second at `r`. */
  predicate Misshapen(s: string, e: nat, q: nat, r: nat) {
    e == 0 || q == |s| || q == 0 || q >= e - 1 || r < e
  }

  lemma MisshapenFails(s: string, e: nat, q: nat, r: nat)
    requires s != "" && e == IndexOf(s, ';') && q == IndexOf(s, '=')
    requires r == if q < |s| then q + 1 + IndexOf(s[q + 1..], '=') else |s|
    requires Misshapen(s, e, q, r)
    ensures ItemAt(s) == None
  {
    IndexOfWithin(s, '=', e);
    if q < e {
      if r < e { SecondEquals(s, e, q, r); }
      NoItem(s, e, q, r);
    }
  }

  lemma NoItem(s: string, e: nat, q: nat, r: nat)
    requires s != "" && e == IndexOf(s, ';') && q == IndexOf(s[..e], '=') && q < e
    requires q == 0 || q == e - 1 || (q < r < e && s[..e][q + 1..][r - q - 1] == '=')
    ensures ItemAt(s) == None
  {
    var item := Item(s[..e][..q], s[..e][q + 1..], e < |s|);
    hide IndexOf, ValidItem;
    if q == 0 || q == e - 1 { EmptyIsInvalid(item); } else { EqualsIsInvalid(item, r - q - 1); }
  }

  lemma SecondEquals(s: string, e: nat, q: nat, r: nat)
    requires q < r < e <= |s| && r == q + 1 + IndexOf(s[q + 1..], '=')
    ensures s[..e][q + 1..][r - q - 1] == '='
  {
    assert s[q + 1..][r - q - 1] == s[r];
  }

  lemma ShapedItem(s: string, e: nat, q: nat, r: nat)
    requires s != "" && e == IndexOf(s, ';') && q == IndexOf(s, '=')
    requires r == if q < |s| then q + 1 + IndexOf(s[q + 1..], '=') else |s|
    requires !Misshapen(s, e, q, r)
    ensures var item := Item(s[..q], s[q + 1..e], e < |s|);
            && (forall i :: 0 <= i < |item.value| ==> item.value[i] != ';' && item.value[i] != '=')
            && ItemAt(s) == if ValidItem(item) then Some(item) else None
  {
    hide ValidItem, IndexOf;
    IndexOfWithin(s, '=', e);
    NoneWithin(s, e, q, r);
    assert s[..e][..q] == s[..q] && s[..e][q + 1..] == s[q + 1..e];
  }

  lemma NoneWithin(s: string, e: nat, q: nat, r: nat)
    requires q < e <= r && e == IndexOf(s, ';') && q < |s| && r == q + 1 + IndexOf(s[q + 1..], '=')
    ensures forall i :: q < i < e ==> s[i] != ';' && s[i] != '='
  {
    hide IndexOf;
    var t := s[q + 1..];
    forall i | q < i < e ensures s[i] != ';' && s[i] != '=' {
      assert s[..e][i] == s[i];
      assert t[..IndexOf(t, '=')][i - q - 1] == s[i];
    }
  }

  lemma EqualsIsInvalid(item: Item, i: nat)
    requires i < |item.value| && item.value[i] == '='
    ensures !ValidItem(item)
  {
    assert !ValueChar(item.value[i]);
  }

  lemma EmptyIsInvalid(item: Item)
    requires item.key == "" || item.value == ""
    ensures !ValidItem(item)
  {
  }

  method CheckKey(key: string) returns (ok: bool)
    ensures ok <==> KeyOk(key)
  {
    for i := 0 to |key|
      invariant forall j :: 0 <= j < i ==> KeyChar(key[j])
    {
      if !KeyChar(key[i]) { return false; }
    }
    return true;
  }

  method CheckSetting(setting: string) returns (ok: bool)
    ensures ok <==> SettingOk(setting)
  {
    for i := 0 to |setting|
      invariant forall j :: 0 <= j < i ==> setting[j] >= ' ' && setting[j] as int != 127
    {
      if setting[i] < ' ' || setting[i] as int == 127 { return false; }
    }
    return true;
  }

  predicate KeyOk(key: string) { forall i :: 0 <= i < |key| ==> KeyChar(key[i]) }
  predicate SettingOk(setting: string) { forall i :: 0 <= i < |setting| ==> setting[i] >= ' ' && setting[i] as int != 127 }

  /** What is left to check once the delimiters have been found. */
  lemma Decide(item: Item)
    requires item.key != "" && item.value != ""
    requires forall i :: 0 <= i < |item.value| ==> item.value[i] != ';' && item.value[i] != '='
    ensures ValidItem(item) <==> KeyOk(item.key) && SettingOk(item.value) && (IsGpu(item) ==> ValidSetting(item.value))
  {
    hide IsGpu, KeyEqual, KeyChar;
  }

  /** Whether the well-formed item may stand, and whether it is the GPU token. */
  method CheckItem(key: string, setting: string) returns (ok: bool, gpu: bool)
    requires key != "" && setting != ""
    requires forall i :: 0 <= i < |setting| ==> setting[i] != ';' && setting[i] != '='
    ensures forall d: bool :: ok <==> ValidItem(Item(key, setting, d))
    ensures ok ==> forall d: bool :: gpu == IsGpu(Item(key, setting, d))
  {
    Decide(Item(key, setting, true));
    Decide(Item(key, setting, false));
    hide ValidItem, KeyOk, SettingOk, GpuKey, KeyEqual;
    ok, gpu := false, false;
    var keyOk := CheckKey(key);
    if !keyOk { return; }
    var settingOk := CheckSetting(setting);
    if !settingOk { return; }
    gpu := KeysEqual(key, GpuKey());
    ok := !gpu || (|setting| == 1 && '0' <= setting[0] <= '2');
  }

  /** The token that begins at `begin`, when it is well formed. */
  method ReadToken(value: string, begin: nat) returns (token: Option<Token>)
    requires begin < |value|
    ensures match token
            case None => ItemAt(value[begin..]) == None
            case Some(t) =>
              && t.begin == begin && Inside(value, t) && ItemAt(value[begin..]) == Some(ItemOf(value, t))
              && t.gpu == IsGpu(ItemOf(value, t))
              && t.end == begin + IndexOf(value[begin..], ';') && t.delimiter == (t.end < |value|)
  {
    hide ItemAt, IndexOf, ValidItem, IsGpu, Misshapen;
    var end := Find(value, ';', begin);
    var equals := Find(value, '=', begin);
    var second := |value|;
    if equals < |value| { second := Find(value, '=', equals + 1); }
    ghost var s, e, q, r := value[begin..], end - begin, equals - begin, second - begin;
    assert equals < |value| ==> value[equals + 1..] == s[q + 1..];
    if end == begin || equals == |value| || equals == begin || equals >= end - 1 || second < end {
      MisshapenHere(s, e, q, r);
      MisshapenFails(s, e, q, r);
      return None;
    }
    ShapedHere(s, e, q, r);
    ShapedItem(s, e, q, r);
    assert value[begin..equals] == s[..q] && value[equals + 1..end] == s[q + 1..e];
    var ok, gpu := CheckItem(value[begin..equals], value[equals + 1..end]);
    token := if ok then Some(Token(begin, end, equals, end < |value|, gpu)) else None;
  }

  lemma MisshapenHere(s: string, e: nat, q: nat, r: nat)
    requires e == 0 || q == |s| || q == 0 || q >= e - 1 || r < e
    ensures Misshapen(s, e, q, r)
  {
  }

  lemma ShapedHere(s: string, e: nat, q: nat, r: nat)
    requires !(e == 0 || q == |s| || q == 0 || q >= e - 1 || r < e)
    ensures !Misshapen(s, e, q, r)
  {
  }

  // ---- parsing ----

  method CheckSeen(value: string, tokens: seq<Token>, key: string) returns (seen: bool)
    requires AllInside(value, tokens)
    ensures seen <==> KeySeen(ItemsOf(value, tokens), key)
  {
    hide KeyEqual;
    for i := 0 to |tokens|
      invariant forall j :: 0 <= j < i ==> !KeyEqual(ItemsOf(value, tokens)[j].key, key)
    {
      var t := tokens[i];
      assert t in tokens && ItemsOf(value, tokens)[i] == ItemOf(value, t);
      var equal := KeysEqual(key, value[t.begin..t.keyEnd]);
      KeyEqualBothWays(key, value[t.begin..t.keyEnd]);
      if equal { return true; }
    }
    return false;
  }

  lemma KeyEqualBothWays(a: string, b: string)
    ensures KeyEqual(a, b) == KeyEqual(b, a)
  {
  }

  lemma ScanStep(s: string, seen: seq<Item>)
    requires s != "" && |seen| < MAXIMUM_TOKENS
    ensures var item := ItemAt(s);
            Scan(s, seen) == if item.None? || KeySeen(seen, item.value.key) then None
                             else Scan(if item.value.delimited then s[IndexOf(s, ';') + 1..] else "", seen + [item.value])
    ensures ItemAt(s).Some? ==> ItemAt(s).value.delimited == (IndexOf(s, ';') < |s|)
  {
    if ItemAt(s).Some? { ItemWasRead(s); }
    hide ItemAt, KeySeen;
  }

  /** What one more token means for the recorded preference. */
  lemma {:induction false} PreferenceOneMore(items: seq<Item>, item: Item)
    requires !KeySeen(items, item.key) && ValidItem(item)
    ensures Preference(items + [item])
            == if IsGpu(item) then item.value[0] as int - '0' as int else Preference(items)
    ensures Present(items + [item]) <==> Present(items) || IsGpu(item)
  {
    var all := items + [item];
    if IsGpu(item) {
      forall i | 0 <= i < |items| ensures !IsGpu(items[i]) { SameKeyAsGpu(items[i], item); }
      PreferenceOf(all, item.value[0] as int - '0' as int, |items|);
    } else if Present(items) {
      var i :| 0 <= i < |items| && IsGpu(items[i]);
      assert IsGpu(all[i]);
      PreferenceKept(items, item);
    } else {
      forall i | 0 <= i < |all| ensures !IsGpu(all[i]) { if i < |items| { assert all[i] == items[i]; } }
      NoPreference(all);
      NoPreference(items);
    }
  }

  lemma SameKeyAsGpu(a: Item, b: Item)
    requires IsGpu(b) && !KeyEqual(a.key, b.key)
    ensures !IsGpu(a)
  {
  }

  lemma {:induction false} PreferenceKept(items: seq<Item>, item: Item)
    requires !IsGpu(item)
    ensures Preference(items + [item]) == Preference(items)
  {
    hide IsGpu;
    if items == [] {
      assert items + [item] == [item] && [item][1..] == [];
    } else {
      assert (items + [item])[0] == items[0] && (items + [item])[1..] == items[1..] + [item];
      PreferenceKept(items[1..], item);
    }
  }

  lemma Appended(value: string, tokens: seq<Token>, t: Token)
    requires AllInside(value, tokens) && AllInside(value, [t])
    ensures AllInside(value, tokens + [t]) && ItemsOf(value, tokens + [t]) == ItemsOf(value, tokens) + [ItemOf(value, t)]
  {
    assert t in [t];
  }

  lemma TokenTiles(value: string, t: Token)
    requires Inside(value, t) && t.end == t.begin + IndexOf(value[t.begin..], ';') && t.delimiter == (t.end < |value|)
    requires ItemAt(value[t.begin..]) == Some(ItemOf(value, t)) && t.gpu == IsGpu(ItemOf(value, t))
    ensures AllInside(value, [t])
  {
    hide ItemAt, IsGpu, Text, ValidItem, IndexOf;
    var s := value[t.begin..];
    ItemWasRead(s);
    var item, n := ItemOf(value, t), Beyond(t) - t.begin;
    var rest := if t.delimiter then s[IndexOf(s, ';') + 1..] else "";
    assert rest == s[n..];
    PrefixOf(s, Text(item), n);
    assert value[t.begin..Beyond(t)] == s[..n];
  }

  lemma PrefixOf(s: string, text: string, n: nat)
    requires n <= |s| && s == text + s[n..]
    ensures s[..n] == text
  {
    assert |text| == n;
  }

  /** What has been read when `begin` characters of the value are behind. */
  ghost predicate ReadSoFar(value: string, begin: nat, tokens: seq<Token>, preference: nat, present: bool) {
    && begin <= |value| && |tokens| <= MAXIMUM_TOKENS && AllInside(value, tokens)
    && Scan(value, []) == Scan(value[begin..], ItemsOf(value, tokens))
    && preference == Preference(ItemsOf(value, tokens)) && (present <==> Present(ItemsOf(value, tokens)))
  }

  lemma TokenFails(value: string, begin: nat, tokens: seq<Token>, preference: nat, present: bool)
    requires begin < |value| && ReadSoFar(value, begin, tokens, preference, present)
    requires |tokens| == MAXIMUM_TOKENS || ItemAt(value[begin..]) == None
             || KeySeen(ItemsOf(value, tokens), ItemAt(value[begin..]).value.key)
    ensures Scan(value, []) == None
  {
    hide ItemAt, KeySeen;
  }

  /** Where the next token begins. */
  function Beyond(t: Token): nat { t.end + (if t.delimiter then 1 else 0) }

  /** What reading one more token leaves to scan. */
  lemma TokenScans(value: string, seen: seq<Item>, t: Token)
    requires t.begin < |value| && |seen| < MAXIMUM_TOKENS
    requires Inside(value, t) && ItemAt(value[t.begin..]) == Some(ItemOf(value, t))
    requires t.end == t.begin + IndexOf(value[t.begin..], ';') && t.delimiter == (t.end < |value|)
    requires !KeySeen(seen, ItemOf(value, t).key)
    ensures Beyond(t) <= |value| && ValidItem(ItemOf(value, t))
    ensures Scan(value[t.begin..], seen) == Scan(value[Beyond(t)..], seen + [ItemOf(value, t)])
  {
    hide Scan, ItemAt, IndexOf, KeySeen, ValidItem, Text, KeyEqual;
    var s := value[t.begin..];
    ItemWasRead(s);
    ScanStep(s, seen);
    assert value[Beyond(t)..] == if t.delimiter then s[IndexOf(s, ';') + 1..] else "";
  }

  lemma TokenCounts(value: string, begin: nat, tokens: seq<Token>, t: Token, preference: nat, present: bool)
    requires begin < |value| && |tokens| < MAXIMUM_TOKENS && ReadSoFar(value, begin, tokens, preference, present)
    requires t.begin == begin && Inside(value, t) && ItemAt(value[begin..]) == Some(ItemOf(value, t))
    requires t.gpu == IsGpu(ItemOf(value, t))
    requires t.end == begin + IndexOf(value[begin..], ';') && t.delimiter == (t.end < |value|)
    requires !KeySeen(ItemsOf(value, tokens), ItemOf(value, t).key)
    ensures t.keyEnd + 1 < |value| && (t.gpu ==> '0' <= value[t.keyEnd + 1] <= '2')
    ensures ReadSoFar(value, Beyond(t), tokens + [t],
                      if t.gpu then value[t.keyEnd + 1] as int - '0' as int else preference, present || t.gpu)
  {
    hide Scan, ItemAt, IndexOf, KeySeen, Text, ValidItem, IsGpu, AllInside, Preference, Present;
    var items, item := ItemsOf(value, tokens), ItemOf(value, t);
    TokenScans(value, items, t);
    GpuDigit(value, t);
    TokenTiles(value, t);
    Appended(value, tokens, t);
    PreferenceOneMore(items, item);
  }

  method ParseValue(value: string) returns (status: Status, preference: nat, present: bool, tokens: seq<Token>)
    ensures match Parse(value)
            case Rejected(s) => status == s
            case Parsed(items) =>
              && status == Ok && AllInside(value, tokens) && ItemsOf(value, tokens) == items
              && preference == Preference(items) && (present <==> Present(items))
  {
    hide Scan, ItemAt, IndexOf, KeySeen, IsGpu, Inside, ReadSoFar, AllInside, Preference, Present, ValidItem, Text;
    status, preference, present, tokens := Ok, 0, false, [];
    if |value| > MAXIMUM_CHARACTERS { status := ValueTooLarge; return; }
    var begin := 0;
    NothingRead(value);
    while begin < |value|
      invariant begin <= |value| && |tokens| <= MAXIMUM_TOKENS && AllInside(value, tokens)
      invariant ReadSoFar(value, begin, tokens, preference, present) && status == Ok
    {
      status := MalformedValue;
      if |tokens| == MAXIMUM_TOKENS { TokenFails(value, begin, tokens, preference, present); return; }
      var token := ReadToken(value, begin);
      if token.None? { TokenFails(value, begin, tokens, preference, present); return; }
      var t := token.value;
      KeyPart(value, t);
      var seen := CheckSeen(value, tokens, value[t.begin..t.keyEnd]);
      if seen { TokenFails(value, begin, tokens, preference, present); return; }
      status := Ok;
      TokenCounts(value, begin, tokens, t, preference, present);
      if t.gpu { preference, present := value[t.keyEnd + 1] as int - '0' as int, true; }
      StillInside(value, Beyond(t), tokens + [t], preference, present);
      tokens := tokens + [t];
      begin := Beyond(t);
    }
    ReadToTheEnd(value, tokens, preference, present);
  }

  lemma NothingRead(value: string)
    ensures AllInside(value, []) && ReadSoFar(value, 0, [], 0, false)
  {
    assert value[0..] == value && ItemsOf(value, []) == [];
  }

  lemma StillInside(value: string, begin: nat, tokens: seq<Token>, preference: nat, present: bool)
    requires ReadSoFar(value, begin, tokens, preference, present)
    ensures begin <= |value| && |tokens| <= MAXIMUM_TOKENS && AllInside(value, tokens)
  {
  }

  lemma ReadToTheEnd(value: string, tokens: seq<Token>, preference: nat, present: bool)
    requires ReadSoFar(value, |value|, tokens, preference, present)
    ensures AllInside(value, tokens) && Scan(value, []) == Some(ItemsOf(value, tokens))
    ensures preference == Preference(ItemsOf(value, tokens)) && (present <==> Present(ItemsOf(value, tokens)))
  {
    ScanEnds(ItemsOf(value, tokens));
  }

  lemma KeyPart(value: string, t: Token)
    requires Inside(value, t)
    ensures t.begin <= t.keyEnd < |value| && ItemOf(value, t).key == value[t.begin..t.keyEnd]
    ensures t.end <= |value| && t.begin < t.end && (t.delimiter ==> t.end < |value|)
  {
  }

  lemma GpuDigit(value: string, t: Token)
    requires Inside(value, t) && ValidItem(ItemOf(value, t))
    ensures t.keyEnd + 1 < |value| && ItemOf(value, t).value[0] == value[t.keyEnd + 1]
    ensures IsGpu(ItemOf(value, t)) ==> '0' <= value[t.keyEnd + 1] <= '2'
  {
  }

  lemma ScanEnds(items: seq<Item>)
    ensures Scan("", items) == Some(items)
  {
  }

  // ---- rewriting ----

  /** What the rewriter appends for one token. */
  lemma ReplacedText(item: Item, preference: nat)
    requires preference <= 2
    ensures Texts(ReplacedItem(item, preference))
            == if !IsGpu(item) then Text(item)
               else if preference != 0 then
                 "GpuPreference=" + [if preference == 1 then '1' else '2'] + (if item.delimited then ";" else "")
               else ""
  {
    hide IsGpu;
    if !IsGpu(item) {
      TextsOfOne(item);
    } else if preference != 0 {
      TextsOfOne(GpuItem(preference, item.delimited));
      GpuText(preference, item.delimited);
    }
  }

  lemma GpuText(preference: nat, delimited: bool)
    requires 1 <= preference <= 2
    ensures Text(GpuItem(preference, delimited))
            == "GpuPreference=" + [if preference == 1 then '1' else '2'] + (if delimited then ";" else "")
  {
    assert GpuKey() + "=" == "GpuPreference=";
  }

  lemma ReplacedStep(items: seq<Item>, i: nat, preference: nat)
    requires i < |items|
    ensures Texts(Replaced(items[..i + 1], preference))
            == Texts(Replaced(items[..i], preference)) + Texts(ReplacedItem(items[i], preference))
  {
    hide ReplacedItem;
    assert items[..i + 1] == items[..i] + [items[i]];
    ReplacedConcatenates(items[..i], [items[i]], preference);
    assert [items[i]][1..] == [] && ReplacedItem(items[i], preference) + [] == ReplacedItem(items[i], preference);
    assert Replaced([items[i]], preference) == ReplacedItem(items[i], preference);
    TextsConcatenate(Replaced(items[..i], preference), ReplacedItem(items[i], preference));
  }

  method RewriteTokens(value: string, tokens: seq<Token>, preference: nat) returns (text: string)
    requires AllInside(value, tokens) && preference <= 2
    ensures text == Texts(Replaced(ItemsOf(value, tokens), preference))
  {
    hide Text, IsGpu, ReplacedItem, Replaced, Texts;
    ghost var items := ItemsOf(value, tokens);
    text := "";
    NothingKept(preference);
    assert items[..0] == [];
    for i := 0 to |tokens|
      invariant text == Texts(Replaced(items[..i], preference))
    {
      var t := tokens[i];
      assert t in tokens && items[i] == ItemOf(value, t);
      ReplacedStep(items, i, preference);
      ReplacedText(items[i], preference);
      ghost var before := text;
      if !t.gpu {
        text := text + value[t.begin..t.end + (if t.delimiter then 1 else 0)];
      } else if preference != 0 {
        text := text + "GpuPreference=";
        text := text + [if preference == 1 then '1' else '2'];
        if t.delimiter { text := text + ";"; }
        ThreeParts(before, "GpuPreference=", [if preference == 1 then '1' else '2'], t.delimiter);
      }
    }
    assert items[..|tokens|] == items;
  }

  lemma NothingKept(preference: nat)
    ensures Texts(Replaced([], preference)) == ""
  {
  }

  lemma ThreeParts(a: string, b: string, c: string, delimited: bool)
    ensures a + (b + c + (if delimited then ";" else "")) == if delimited then a + b + c + ";" else a + b + c
  {
  }

  method RewriteValue(value: string, preference: nat) returns (result: Rewritten)
    ensures result == Rewrite(value, preference)
  {
    hide Parse, Texts, Replaced, Text, GpuItem, Present, Preference, AllInside;
    if preference > 2 { return Failed(InvalidPreference); }
    var status, recorded, present, tokens := ParseValue(value);
    if status != Ok { StatusOf(value); return Failed(status); }
    StatusOf(value);
    var text := RewriteTokens(value, tokens, preference);
    if !present && preference != 0 {
      if text != "" && text[|text| - 1] != ';' { text := text + ";"; }
      AppendedText(preference);
      text := text + (if preference == 1 then "GpuPreference=1;" else "GpuPreference=2;");
    }
    if |text| > MAXIMUM_CHARACTERS { return Failed(ValueTooLarge); }
    return Value(text);
  }

  lemma AppendedText(preference: nat)
    requires 1 <= preference <= 2
    ensures Text(GpuItem(preference, true)) == if preference == 1 then "GpuPreference=1;" else "GpuPreference=2;"
  {
    GpuText(preference, true);
  }

  lemma StatusOf(value: string)
    ensures Parse(value).Rejected? ==> Parse(value).status != Ok
  {
  }
}
