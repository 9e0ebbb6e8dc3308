/** The order in which one direction's datagrams reach the peer. The relay decides it one datagram
    at a time with a hold slot; `Delivered` says the same about the whole list of accepted
    datagrams at once, without a slot. */
module RelayOrder {
  import opened Common
  import opened RelayTypes
  import opened RelayCore
  import opened RelayLedger
  import opened RelaySettled

  datatype Item = Item(index: nat, action: Action)

  /** Position of the first forwarded datagram, or the length of the list. */
  ghost function FirstForward(l: seq<Item>): (k: nat)
    ensures k <= |l|
  {
    if l == [] || l[0].action == Forward then 0 else 1 + FirstForward(l[1..])
  }

  /** A released hold and the forward that released it, in peer order. */
  ghost function Pair(held: Item, forward: Item): seq<nat> {
    if held.action == HoldForDelay then [held.index, forward.index] else [forward.index, held.index]
  }

  /** The journal indices in the order they are emitted. A hold waits for the next forwarded
      datagram: a delay goes out just before it, a reorder just after it. A hold that no forward
      follows goes out last when the run is flushed, and not at all before that. */
  ghost function Delivered(l: seq<Item>, flushed: bool): seq<nat>
    decreases |l|
  {
    if l == [] then []
    else
      var x, rest := l[0].index, l[1..];
      match l[0].action
      case Forward => [x] + Delivered(rest, flushed)
      case Drop | AuxiliaryObservation => Delivered(rest, flushed)
      case Duplicate => [x, x] + Delivered(rest, flushed)
      case HoldForDelay | HoldForReorder =>
        var k := FirstForward(rest);
        if k == |rest| then Delivered(rest, flushed) + if flushed then [x] else []
        else
          Delivered(rest[..k], flushed)
          + Pair(l[0], rest[k])
          + Delivered(rest[k + 1..], flushed)
  }

  ghost predicate NoHolds(l: seq<Item>) {
    forall i :: 0 <= i < |l| ==> !IsHold(l[i].action)
  }

  /** No second hold is asked for before the first one is released. */
  ghost predicate Orderly(l: seq<Item>)
    decreases |l|
  {
    if l == [] then true
    else if !IsHold(l[0].action) then Orderly(l[1..])
    else
      var k := FirstForward(l[1..]);
      NoHolds(l[1..][..k]) && (k < |l| - 1 ==> Orderly(l[k + 2..]))
  }

  /** The hold that is still waiting at the end of the list. */
  ghost function OpenHold(l: seq<Item>): Option<Item>
    decreases |l|
  {
    if l == [] then None
    else if !IsHold(l[0].action) then OpenHold(l[1..])
    else
      var k := FirstForward(l[1..]);
      if k == |l| - 1 then Some(l[0]) else OpenHold(l[k + 2..])
  }

  // ---- appending one accepted datagram ----

  ghost function Appended(open: Option<Item>, z: Item): seq<nat> {
    match z.action
    case Forward =>
      if open.None? then [z.index] else Pair(open.value, z)
    case Duplicate => [z.index, z.index]
    case _ => []
  }

  ghost function OpenAfter(open: Option<Item>, z: Item): Option<Item> {
    if z.action == Forward then None else if IsHold(z.action) then Some(z) else open
  }

  lemma {:induction false} FirstForwardAppend(l: seq<Item>, z: Item)
    ensures FirstForward(l + [z]) ==
            if FirstForward(l) < |l| || z.action == Forward then FirstForward(l) else |l| + 1
  {
    if l == [] {
      assert (l + [z])[1..] == [];
    } else {
      assert (l + [z])[1..] == l[1..] + [z];
      FirstForwardAppend(l[1..], z);
    }
  }

  lemma {:induction false} NoHoldsNothingOpen(l: seq<Item>)
    requires NoHolds(l)
    ensures OpenHold(l).None? && Orderly(l)
  {
    if l != [] { NoHoldsNothingOpen(l[1..]); }
  }

  lemma EmptyLane()
    ensures Delivered([], false) == [] && OpenHold([]).None? && Orderly([])
  {
  }

  // `Delivered`, `OpenHold` and `Orderly` of a list that starts with a hold.

  lemma HoldDelivered(held: Item, rest: seq<Item>, flushed: bool)
    requires IsHold(held.action)
    ensures var k := FirstForward(rest);
            Delivered([held] + rest, flushed) ==
            if k == |rest| then Delivered(rest, flushed) + (if flushed then [held.index] else [])
            else Delivered(rest[..k], flushed) + Pair(held, rest[k]) + Delivered(rest[k + 1..], flushed)
  {
    assert ([held] + rest)[1..] == rest;
  }

  lemma OpenOfHold(l: seq<Item>)
    requires l != [] && IsHold(l[0].action)
    ensures var k := FirstForward(l[1..]);
            OpenHold(l) == if k == |l| - 1 then Some(l[0]) else OpenHold(l[k + 2..])
  {
    hide FirstForward;
  }

  lemma HoldOpen(held: Item, rest: seq<Item>)
    requires IsHold(held.action)
    ensures var k := FirstForward(rest);
            OpenHold([held] + rest) == if k == |rest| then Some(held) else OpenHold(rest[k + 1..])
  {
    hide FirstForward, OpenHold;
    var l, k := [held] + rest, FirstForward(rest);
    assert l[1..] == rest && l[0] == held;
    OpenOfHold(l);
    if k < |rest| { assert l[k + 2..] == rest[k + 1..]; }
  }

  lemma HoldOrderly(held: Item, rest: seq<Item>)
    requires IsHold(held.action)
    ensures var k := FirstForward(rest);
            Orderly([held] + rest) <==> NoHolds(rest[..k]) && (k < |rest| ==> Orderly(rest[k + 1..]))
  {
    var l, k := [held] + rest, FirstForward(rest);
    assert l[1..] == rest;
    if k < |rest| { assert l[k + 2..] == rest[k + 1..]; }
  }

  lemma PlainFirst(x: Item, rest: seq<Item>, flushed: bool)
    requires !IsHold(x.action)
    ensures var l := [x] + rest;
            && Delivered(l, flushed) == Appended(None, x) + Delivered(rest, flushed)
            && OpenHold(l) == OpenHold(rest)
            && (Orderly(l) <==> Orderly(rest))
  {
    assert ([x] + rest)[1..] == rest;
  }

  /** The whole-list order grows exactly as the slot-by-slot relay makes it grow. */
  lemma {:induction false} AppendDelivered(l: seq<Item>, z: Item)
    requires Orderly(l)
    requires IsHold(z.action) ==> OpenHold(l).None?
    ensures Orderly(l + [z])
    ensures OpenHold(l + [z]) == OpenAfter(OpenHold(l), z)
    ensures Delivered(l + [z], false) == Delivered(l, false) + Appended(OpenHold(l), z)
    decreases |l|, 0
  {
    if l == [] {
      if IsHold(z.action) { HoldDelivered(z, [], false); HoldOpen(z, []); HoldOrderly(z, []); } else { PlainFirst(z, [], false); }
      assert l + [z] == [z] + [];
    } else {
      var x, rest := l[0], l[1..];
      assert l == [x] + rest && l + [z] == [x] + (rest + [z]);
      if IsHold(x.action) {
        AppendAfterHold(x, rest, z);
      } else {
        PlainFirst(x, rest, false);
        PlainFirst(x, rest + [z], false);
        AppendDelivered(rest, z);
      }
    }
  }

  lemma {:induction false} AppendAfterHold(x: Item, rest: seq<Item>, z: Item)
    requires IsHold(x.action) && Orderly([x] + rest)
    requires IsHold(z.action) ==> OpenHold([x] + rest).None?
    ensures Orderly([x] + (rest + [z]))
    ensures OpenHold([x] + (rest + [z])) == OpenAfter(OpenHold([x] + rest), z)
    ensures Delivered([x] + (rest + [z]), false) == Delivered([x] + rest, false) + Appended(OpenHold([x] + rest), z)
    decreases |rest|, 1
  {
    hide Delivered, OpenHold, Orderly, FirstForward;
    var k, more := FirstForward(rest), rest + [z];
    HoldOpen(x, rest);
    HoldOrderly(x, rest);
    FirstForwardAppend(rest, z);
    if k < |rest| {
      var after := rest[k + 1..];
      assert more[..k] == rest[..k] && more[k + 1..] == after + [z];
      AppendDelivered(after, z);
      HoldOpen(x, more);
      HoldOrderly(x, more);
      assert rest == rest[..k] + [rest[k]] + after && more == rest[..k] + [rest[k]] + (after + [z]);
      ReleasedThenMore(x, rest[..k], rest[k], after, z, Appended(OpenHold(after), z));
    } else {
      assert rest[..k] == rest;
      NoHoldsNothingOpen(rest);
      if z.action == Forward {
        AppendRelease(x, rest, z);
      } else {
        AppendDelivered(rest, z);
        assert more[..|more|] == more;
        HoldDelivered(x, rest, false);
        HoldDelivered(x, more, false);
        HoldOpen(x, more);
        HoldOrderly(x, more);
      }
    }
  }

  /** A list stays orderly exactly when it was and no second hold is added to an open one. */
  lemma {:induction false} OrderlyAppend(l: seq<Item>, z: Item)
    ensures Orderly(l + [z]) <==> Orderly(l) && (IsHold(z.action) ==> OpenHold(l).None?)
    decreases |l|
  {
    if Orderly(l) && (IsHold(z.action) ==> OpenHold(l).None?) { AppendDelivered(l, z); }
    if Orderly(l + [z]) { OrderlyBefore(l, z); }
  }

  lemma {:induction false} OrderlyBefore(l: seq<Item>, z: Item)
    requires Orderly(l + [z])
    ensures Orderly(l) && (IsHold(z.action) ==> OpenHold(l).None?)
    decreases |l|
  {
    if l != [] {
      var x, rest := l[0], l[1..];
      assert l == [x] + rest && l + [z] == [x] + (rest + [z]);
      if IsHold(x.action) {
        HoldBefore(x, rest, z);
      } else {
        PlainFirst(x, rest, false);
        PlainFirst(x, rest + [z], false);
        OrderlyBefore(rest, z);
      }
    }
  }

  lemma {:induction false} HoldBefore(x: Item, rest: seq<Item>, z: Item)
    requires IsHold(x.action) && Orderly([x] + (rest + [z]))
    ensures Orderly([x] + rest) && (IsHold(z.action) ==> OpenHold([x] + rest).None?)
    decreases |rest|, 1
  {
    hide Orderly, OpenHold, FirstForward;
    var k, more := FirstForward(rest), rest + [z];
    HoldOpen(x, rest);
    HoldOrderly(x, rest);
    HoldOrderly(x, more);
    FirstForwardAppend(rest, z);
    if k < |rest| {
      assert more[..k] == rest[..k] && more[k + 1..] == rest[k + 1..] + [z];
      OrderlyBefore(rest[k + 1..], z);
    } else {
      assert rest[..k] == rest && forall i :: 0 <= i < |rest| ==> more[i] == rest[i];
      if z.action != Forward { assert more[..|rest| + 1][|rest|] == z; }
    }
  }

  lemma HoldReleased(x: Item, before: seq<Item>, f: Item, after: seq<Item>)
    requires IsHold(x.action) && FirstForward(before + [f] + after) == |before|
    ensures Delivered([x] + (before + [f] + after), false)
            == Delivered(before, false) + Pair(x, f) + Delivered(after, false)
  {
    var rest := before + [f] + after;
    assert rest[..|before|] == before && rest[|before| + 1..] == after && rest[|before|] == f;
    HoldDelivered(x, rest, false);
  }

  lemma ReleasedThenMore(x: Item, before: seq<Item>, f: Item, after: seq<Item>, z: Item, added: seq<nat>)
    requires IsHold(x.action)
    requires FirstForward(before + [f] + after) == |before| == FirstForward(before + [f] + (after + [z]))
    requires Delivered(after + [z], false) == Delivered(after, false) + added
    ensures Delivered([x] + (before + [f] + (after + [z])), false)
            == Delivered([x] + (before + [f] + after), false) + added
  {
    hide Delivered, FirstForward;
    HoldReleased(x, before, f, after);
    HoldReleased(x, before, f, after + [z]);
    Regroup(Delivered([x] + (before + [f] + after), false), Delivered([x] + (before + [f] + (after + [z])), false),
            Delivered(before, false) + Pair(x, f), Delivered(after, false), added);
  }

  lemma Regroup(whole: seq<nat>, longer: seq<nat>, head: seq<nat>, tail: seq<nat>, added: seq<nat>)
    requires whole == head + tail && longer == head + (tail + added)
    ensures longer == whole + added
  {
  }

  lemma AppendRelease(x: Item, rest: seq<Item>, z: Item)
    requires IsHold(x.action) && z.action == Forward && NoHolds(rest)
    requires FirstForward(rest) == |rest| == FirstForward(rest + [z])
    ensures Orderly([x] + (rest + [z]))
    ensures OpenHold([x] + (rest + [z])).None?
    ensures Delivered([x] + (rest + [z]), false) == Delivered([x] + rest, false) + Pair(x, z)
  {
    hide Delivered, OpenHold, Orderly, FirstForward;
    EmptyLane();
    var more := rest + [z];
    assert more[..|rest|] == rest && more[|rest| + 1..] == [];
    HoldOpen(x, more);
    HoldOrderly(x, more);
    HoldDelivered(x, rest, false);
    HoldDelivered(x, more, false);
  }

  lemma {:induction false} FlushDelivered(l: seq<Item>)
    requires Orderly(l)
    ensures Delivered(l, true) == Delivered(l, false) + if OpenHold(l).Some? then [OpenHold(l).value.index] else []
    decreases |l|
  {
    if l != [] {
      var x, rest := l[0], l[1..];
      assert l == [x] + rest;
      if IsHold(x.action) {
        var k := FirstForward(rest);
        HoldDelivered(x, rest, true);
        HoldDelivered(x, rest, false);
        HoldOpen(x, rest);
        HoldOrderly(x, rest);
        if k < |rest| {
          NoHoldsNothingOpen(rest[..k]);
          FlushDelivered(rest[..k]);
          FlushDelivered(rest[k + 1..]);
        } else {
          assert rest[..k] == rest;
          NoHoldsNothingOpen(rest);
          FlushDelivered(rest);
        }
      } else {
        PlainFirst(x, rest, true);
        PlainFirst(x, rest, false);
        FlushDelivered(rest);
      }
    }
  }

  // ---- what the order means ----

  ghost function Indices(l: seq<Item>): seq<nat> {
    seq(|l|, i requires 0 <= i < |l| => l[i].index)
  }

  lemma HoldBeforeForward(l: seq<Item>)
    requires forall i :: 0 <= i < |l| ==> l[i].action == Forward || IsHold(l[i].action)
    ensures FirstForward(l) > 0 ==> IsHold(l[..FirstForward(l)][0].action)
  {
  }

  /** With nothing but forwards and delays, the peer sees the observed order. */
  lemma {:induction false} DelaysKeepOrder(l: seq<Item>)
    requires forall i :: 0 <= i < |l| ==> l[i].action == Forward || l[i].action == HoldForDelay
    requires Orderly(l)
    ensures Delivered(l, true) == Indices(l)
    decreases |l|
  {
    if l != [] {
      var rest := l[1..];
      if l[0].action == Forward {
        DelaysKeepOrder(rest);
        assert Indices(l) == [l[0].index] + Indices(rest);
      } else {
        var k := FirstForward(rest);
        HoldBeforeForward(rest);
        assert k == 0;
        if rest == [] {
          assert Indices(l) == [l[0].index];
        } else {
          assert l[2..] == rest[1..];
          DelaysKeepOrder(rest[1..]);
          assert Indices(l) == [l[0].index, rest[0].index] + Indices(rest[1..]);
        }
      }
    }
  }

  /** Which observed position ends up at position `p` when every reorder swaps with its successor. */
  ghost function SwappedPosition(l: seq<Item>, p: nat): nat
    requires p < |l|
  {
    if l[p].action == HoldForReorder && p + 1 < |l| then p + 1
    else if p > 0 && l[p - 1].action == HoldForReorder then p - 1
    else p
  }

  /** With nothing but forwards and reorders, the peer sees the observed order with each reorder
      and its successor exchanged; the exchanges never overlap. */
  lemma {:induction false} ReordersSwapNeighbours(l: seq<Item>)
    requires forall i :: 0 <= i < |l| ==> l[i].action == Forward || l[i].action == HoldForReorder
    requires Orderly(l)
    ensures |Delivered(l, true)| == |l|
    ensures forall p :: 0 <= p < |l| ==> Delivered(l, true)[p] == l[SwappedPosition(l, p)].index
    ensures forall p :: 0 <= p < |l| - 1 && l[p].action == HoldForReorder ==> l[p + 1].action == Forward
    decreases |l|
  {
    if l != [] {
      var rest := l[1..];
      var out := Delivered(l, true);
      if l[0].action == Forward {
        ReordersSwapNeighbours(rest);
        forall p | 0 <= p < |l| ensures out[p] == l[SwappedPosition(l, p)].index {
          if p > 0 { assert SwappedPosition(l, p) == SwappedPosition(rest, p - 1) + 1; }
        }
      } else {
        var k := FirstForward(rest);
        HoldBeforeForward(rest);
        assert k == 0;
        if rest != [] {
          var tail := rest[1..];
          assert l[2..] == tail;
          ReordersSwapNeighbours(tail);
          assert out == [rest[0].index, l[0].index] + Delivered(tail, true);
          forall p | 0 <= p < |l| ensures out[p] == l[SwappedPosition(l, p)].index {
            if p > 1 { assert SwappedPosition(l, p) == SwappedPosition(tail, p - 2) + 2; }
          }
          forall p | 0 <= p < |l| - 1 && l[p].action == HoldForReorder ensures l[p + 1].action == Forward {
            if p > 1 { assert tail[p - 2] == l[p]; }
          }
        }
      }
    }
  }

  // ---- the lanes of a core ----

  /** The accepted entries of one direction, oldest first. */
  ghost function Lane(j: seq<Entry>, d: Direction): seq<Item> {
    if j == [] then []
    else
      var n := |j| - 1;
      Lane(j[..n], d) + if j[n].direction == d && !j[n].wrongSource then [Item(n, j[n].action)] else []
  }

  ghost function WireLane(w: seq<Emission>, d: Direction): seq<nat> {
    if w == [] then []
    else
      var n := |w| - 1;
      WireLane(w[..n], d) + if w[n].direction == d then [w[n].index] else []
  }

  lemma {:induction false} LaneDependsOnFaces(j: seq<Entry>, k: seq<Entry>, d: Direction)
    requires SameFaces(j, k)
    ensures Lane(j, d) == Lane(k, d)
  {
    if j != [] {
      var n := |j| - 1;
      assert Face(j[n]) == Face(k[n]);
      assert forall i :: 0 <= i < n ==> j[..n][i] == j[i] && k[..n][i] == k[i];
      LaneDependsOnFaces(j[..n], k[..n], d);
    }
  }

  lemma WireLaneAppend(w: seq<Emission>, e: Emission, d: Direction)
    ensures WireLane(w + [e], d) == WireLane(w, d) + if e.direction == d then [e.index] else []
  {
    assert (w + [e])[..|w|] == w;
  }

  ghost function AsItem(slot: Option<HeldDatagram>): Option<Item> {
    if slot.None? then None
    else Some(Item(slot.value.index, if slot.value.reorder then HoldForReorder else HoldForDelay))
  }

  /** The slot is the open hold of the lane, and the wire carries what is due so far. */
  ghost predicate InOrder(c: Core, d: Direction) {
    var l := Lane(c.journal, d);
    && Orderly(l)
    && AsItem(Slot(c, d)) == OpenHold(l)
    && WireLane(c.wire, d) == Delivered(l, false)
  }

  lemma RecordedLane(c: Core, o: Observation, policy: Action, d: Direction)
    ensures Lane(Record(c, o, policy).journal, d) ==
            Lane(c.journal, d)
            + if o.direction == d && !o.wrongSource then [Item(|c.journal|, ObservedAction(o, policy))] else []
  {
    assert Record(c, o, policy).journal[..|c.journal|] == c.journal;
  }

  lemma TwoEmissions(c: Core, d: Direction, a: Packet, b: Packet, sent1: bool, sent2: bool)
    requires a.index < |c.journal| && b.index < |c.journal|
    requires TryEmitTwo(c, d, a, b, sent1, sent2).ok
    ensures var w := TryEmitTwo(c, d, a, b, sent1, sent2).core.wire;
            && WireLane(w, d) == WireLane(c.wire, d) + [a.index, b.index]
            && WireLane(w, Other(d)) == WireLane(c.wire, Other(d))
  {
    var c1 := Emit(c, d, a);
    forall e ensures WireLane(Emit(c1, d, b).wire, e) == WireLane(c.wire, e) + if e == d then [a.index, b.index] else [] {
      WireLaneAppend(c.wire, Emission(d, a.destination, a.payload, a.index), e);
      WireLaneAppend(c1.wire, Emission(d, b.destination, b.payload, b.index), e);
    }
  }

  lemma ReleasedLane(c: Core, d: Direction, p: Packet, sent1: bool, sent2: bool)
    requires p.index < |c.journal| && Slot(c, d).Some?
    requires ReleaseHeld(c, d, p, sent1, sent2).ok
    ensures var c', open := ReleaseHeld(c, d, p, sent1, sent2).core, AsItem(Slot(c, d)).value;
            && WireLane(c'.wire, d) == WireLane(c.wire, d) + Pair(open, Item(p.index, Forward))
            && Slot(c', d).None?
            && WireLane(c'.wire, Other(d)) == WireLane(c.wire, Other(d)) && Slot(c', Other(d)) == Slot(c, Other(d))
  {
    var h := Slot(c, d).value;
    var earlier := Packet(h.destination, h.payload, h.index);
    if h.reorder {
      TwoEmissions(c, d, p, earlier, sent1, sent2);
    } else {
      TwoEmissions(c, d, earlier, p, sent1, sent2);
    }
  }

  lemma ForwardedLane(c: Core, d: Direction, p: Packet)
    requires p.index < |c.journal|
    ensures var w := Emit(c, d, p).wire;
            && WireLane(w, d) == WireLane(c.wire, d) + [p.index]
            && WireLane(w, Other(d)) == WireLane(c.wire, Other(d))
  {
    forall e ensures WireLane(Emit(c, d, p).wire, e) == WireLane(c.wire, e) + if e == d then [p.index] else [] {
      WireLaneAppend(c.wire, Emission(d, p.destination, p.payload, p.index), e);
    }
  }

  /** What one successful processing step adds to each lane of the wire, and to the slot. */
  lemma ProcessedLane(c: Core, d: Direction, p: Packet, action: Action, sent1: bool, sent2: bool)
    requires p.index < |c.journal|
    requires Process(c, d, p, action, sent1, sent2).ok
    ensures var c', z := Process(c, d, p, action, sent1, sent2).core, Item(p.index, action);
            && WireLane(c'.wire, d) == WireLane(c.wire, d) + Appended(AsItem(Slot(c, d)), z)
            && AsItem(Slot(c', d)) == OpenAfter(AsItem(Slot(c, d)), z)
            && (IsHold(action) ==> Slot(c, d).None?)
            && WireLane(c'.wire, Other(d)) == WireLane(c.wire, Other(d)) && Slot(c', Other(d)) == Slot(c, Other(d))
  {
    if action == Forward {
      ForwardLane(c, d, p, sent1, sent2);
    } else if action == Duplicate {
      TwoEmissions(c, d, p, p, sent1, sent2);
    } else {
      QuietLane(c, d, p, action, sent1, sent2);
    }
  }

  lemma ForwardLane(c: Core, d: Direction, p: Packet, sent1: bool, sent2: bool)
    requires p.index < |c.journal| && Process(c, d, p, Forward, sent1, sent2).ok
    ensures var c', z := Process(c, d, p, Forward, sent1, sent2).core, Item(p.index, Forward);
            && WireLane(c'.wire, d) == WireLane(c.wire, d) + Appended(AsItem(Slot(c, d)), z)
            && Slot(c', d).None?
            && WireLane(c'.wire, Other(d)) == WireLane(c.wire, Other(d)) && Slot(c', Other(d)) == Slot(c, Other(d))
  {
    if Slot(c, d).Some? {
      ReleasedLane(c, d, p, sent1, sent2);
    } else {
      ForwardedLane(c, d, p);
    }
  }

  lemma QuietLane(c: Core, d: Direction, p: Packet, action: Action, sent1: bool, sent2: bool)
    requires p.index < |c.journal|
    requires action != Forward && action != Duplicate
    requires Process(c, d, p, action, sent1, sent2).ok
    ensures var c', z := Process(c, d, p, action, sent1, sent2).core, Item(p.index, action);
            && c'.wire == c.wire
            && AsItem(Slot(c', d)) == OpenAfter(AsItem(Slot(c, d)), z)
            && (IsHold(action) ==> Slot(c, d).None?)
            && Slot(c', Other(d)) == Slot(c, Other(d))
            && WireLane(c.wire, d) == WireLane(c.wire, d) + Appended(AsItem(Slot(c, d)), z)
  {
  }

  /** One successful step keeps both directions in order, for every action. */
  lemma TakeKeepsOrder(c: Core, s: Step, d: Direction)
    requires Ledger(c) && ProperStep(s) && InOrder(c, d)
    requires Take(c, s).ok
    ensures InOrder(Take(c, s).core, d)
  {
    match s
    case Reject(o) =>
      RecordedLane(c, o, Drop, d);
      assert Lane(Record(c, o, Drop).journal, d) == Lane(c.journal, d);
    case Accept(o, policy, destination, sent1, sent2) =>
      AcceptKeepsOrder(c, o, policy, destination, sent1, sent2, d);
  }

  lemma AcceptKeepsOrder(c: Core, o: Observation, policy: Action, destination: Address, sent1: bool, sent2: bool,
                d: Direction)
    requires Ledger(c) && InOrder(c, d) && !o.wrongSource && !o.auxiliary && policy != AuxiliaryObservation
    requires Process(Record(c, o, policy), o.direction, Packet(destination, o.payload, |c.journal|), policy, sent1, sent2).ok
    ensures InOrder(Process(Record(c, o, policy), o.direction, Packet(destination, o.payload, |c.journal|), policy, sent1, sent2).core, d)
  {
    var r := Record(c, o, policy);
    var p := Packet(destination, o.payload, |c.journal|);
    RecordKeepsLedger(c, o, policy);
    ProcessKeepsLedger(r, o.direction, p, policy, sent1, sent2);
    var c' := Process(r, o.direction, p, policy, sent1, sent2).core;
    LaneDependsOnFaces(r.journal, c'.journal, d);
    StepKeepsOrder(c, r, c', o, policy, p, sent1, sent2, d);
  }

  lemma StepKeepsOrder(c: Core, r: Core, c': Core, o: Observation, policy: Action, p: Packet, sent1: bool,
                sent2: bool, d: Direction)
    requires InOrder(c, d) && !o.wrongSource && !o.auxiliary
    requires r == Record(c, o, policy) && p.index == |c.journal|
    requires Process(r, o.direction, p, policy, sent1, sent2) == Outcome(c', true)
    requires Lane(c'.journal, d) == Lane(r.journal, d)
    ensures InOrder(c', d)
  {
    var l := Lane(c.journal, d);
    RecordedLane(c, o, policy, d);
    ProcessedLane(r, o.direction, p, policy, sent1, sent2);
    if o.direction == d {
      AppendDelivered(l, Item(p.index, policy));
    } else {
      assert Lane(r.journal, d) == l;
    }
  }

  lemma FlushKeepsOrder(c: Core, d: Direction, destination: Address, sent: bool)
    requires Ledger(c) && InOrder(c, d) && Slot(c, d).Some?
    requires FlushSlot(c, d, destination, sent).ok
    ensures var c' := FlushSlot(c, d, destination, sent).core;
            && WireLane(c'.wire, d) == Delivered(Lane(c'.journal, d), true)
            && WireLane(c'.wire, Other(d)) == WireLane(c.wire, Other(d))
            && Lane(c'.journal, d) == Lane(c.journal, d) && Lane(c'.journal, Other(d)) == Lane(c.journal, Other(d))
  {
    var c' := FlushSlot(c, d, destination, sent).core;
    FlushKeepsLedger(c, d, destination, sent);
    FlushDelivered(Lane(c.journal, d));
    forall e ensures Lane(c'.journal, e) == Lane(c.journal, e) {
      LaneDependsOnFaces(c.journal, c'.journal, e);
    }
    var h := Slot(c, d).value;
    forall e ensures WireLane(c'.wire, e) == WireLane(c.wire, e) + if e == d then [h.index] else [] {
      WireLaneAppend(c.wire, Emission(d, destination, h.payload, h.index), e);
    }
  }
}
