/** The history of held datagrams as the journal shows it: a hold stays open until the next
    accepted forward of its direction, which releases it and leaves right beside it. */
module RelayHolds {
  import opened Common
  import opened RelayTypes
  import opened RelayCore
  import opened RelayLedger
  import opened RelaySettled

  ghost predicate IsForward(e: Entry, d: Direction) {
    e.direction == d && !e.wrongSource && e.action == Forward
  }

  ghost predicate NoForward(j: seq<Entry>, d: Direction, from: int, to: int) {
    forall i :: 0 <= i < |j| && from < i < to ==> !IsForward(j[i], d)
  }

  /** `r` is the first accepted forward after the hold `h`, in the same direction. */
  ghost predicate Successor(j: seq<Entry>, h: int, r: int) {
    && 0 <= h < r < |j| && IsHold(j[h].action) && !j[h].wrongSource
    && IsForward(j[r], j[h].direction)
    && NoForward(j, j[h].direction, h, r)
  }

  /** The held datagram and the forward that released it have adjacent emission ordinals, the held
      one first for a delay and second for a reorder. */
  ghost predicate ReleasedTogether(held: Entry, forward: Entry) {
    && |held.emitted| == 1 && |forward.emitted| == 1
    && (if held.action == HoldForDelay then forward.emitted[0] == held.emitted[0] + 1
        else held.emitted[0] == forward.emitted[0] + 1)
  }

  ghost predicate HoldHistory(j: seq<Entry>) {
    forall h, r :: Successor(j, h, r) && j[h].holdState == Released ==> ReleasedTogether(j[h], j[r])
  }

  /** A hold is held exactly as long as no accepted forward of its direction follows it. */
  ghost predicate HoldsOpen(j: seq<Entry>) {
    forall h :: 0 <= h < |j| && IsHold(j[h].action) ==>
      && (j[h].holdState == Held <==> NoForward(j, j[h].direction, h, |j|))
      && j[h].holdState != Unresolved
  }

  ghost predicate Holds(j: seq<Entry>) {
    HoldHistory(j) && HoldsOpen(j)
  }

  lemma SuccessorDependsOnFaces(j: seq<Entry>, k: seq<Entry>, h: int, r: int)
    requires SameFaces(j, k)
    ensures Successor(j, h, r) <==> Successor(k, h, r)
    ensures forall d, a, b :: NoForward(j, d, a, b) <==> NoForward(k, d, a, b)
  {
    assert forall i :: 0 <= i < |j| ==> Face(j[i]) == Face(k[i]);
    assert forall i, d :: 0 <= i < |j| ==> (IsForward(j[i], d) <==> IsForward(k[i], d));
  }

  lemma NoForwardPrefix(j: seq<Entry>, k: seq<Entry>, d: Direction, from: int, to: int)
    requires |k| == |j| + 1 && to <= |j|
    requires forall i :: 0 <= i < |j| ==> Face(k[i]) == Face(j[i])
    ensures NoForward(k, d, from, to) <==> NoForward(j, d, from, to)
  {
    assert forall i :: 0 <= i < |j| ==> (IsForward(k[i], d) <==> IsForward(j[i], d));
  }

  lemma NoForwardLast(j: seq<Entry>, k: seq<Entry>, d: Direction, from: int)
    requires |k| == |j| + 1 && from < |j|
    requires forall i :: 0 <= i < |j| ==> Face(k[i]) == Face(j[i])
    ensures NoForward(k, d, from, |k|) <==> NoForward(j, d, from, |j|) && !IsForward(k[|j|], d)
  {
    NoForwardPrefix(j, k, d, from, |j|);
  }

  lemma SuccessorPrefix(j: seq<Entry>, k: seq<Entry>, h: int, r: int)
    requires |k| == |j| + 1 && r < |k|
    requires forall i :: 0 <= i < |j| ==> Face(k[i]) == Face(j[i])
    requires Successor(k, h, r)
    ensures if r < |j| then Successor(j, h, r) else NoForward(j, j[h].direction, h, |j|)
  {
    assert Face(k[h]) == Face(j[h]);
    if r < |j| { assert Face(k[r]) == Face(j[r]); }
    NoForwardPrefix(j, k, j[h].direction, h, r);
  }

  /** Appending an entry that is no accepted forward, and settling it: nothing is released. */
  lemma QuietAppend(j: seq<Entry>, k: seq<Entry>)
    requires Holds(j) && |k| == |j| + 1
    requires forall i :: 0 <= i < |j| ==> k[i] == j[i]
    requires !IsForward(k[|j|], k[|j|].direction)
    requires IsHold(k[|j|].action) ==> k[|j|].holdState == Held
    ensures Holds(k)
  {
    forall h, r | Successor(k, h, r) && k[h].holdState == Released ensures ReleasedTogether(k[h], k[r]) {
      SuccessorPrefix(j, k, h, r);
    }
    forall h | 0 <= h < |k| && IsHold(k[h].action)
      ensures k[h].holdState == Held <==> NoForward(k, k[h].direction, h, |k|)
      ensures k[h].holdState != Unresolved
    {
      if h < |j| { NoForwardLast(j, k, k[h].direction, h); }
    }
  }

  /** Appending an accepted forward while nothing is held in its direction. */
  lemma ForwardAppend(j: seq<Entry>, k: seq<Entry>)
    requires Holds(j) && |k| == |j| + 1
    requires forall i :: 0 <= i < |j| ==> k[i] == j[i]
    requires forall h :: 0 <= h < |j| && j[h].direction == k[|j|].direction ==> j[h].holdState != Held
    requires IsForward(k[|j|], k[|j|].direction)
    ensures Holds(k)
  {
    forall h, r | Successor(k, h, r) && k[h].holdState == Released ensures ReleasedTogether(k[h], k[r]) {
      SuccessorPrefix(j, k, h, r);
    }
    forall h | 0 <= h < |k| && IsHold(k[h].action)
      ensures k[h].holdState == Held <==> NoForward(k, k[h].direction, h, |k|)
      ensures k[h].holdState != Unresolved
    {
      NoForwardLast(j, k, k[h].direction, h);
    }
  }

  /** Appending an accepted forward that releases the hold `x`, the only one open in its direction. */
  lemma ReleaseAppend(j: seq<Entry>, k: seq<Entry>, x: nat)
    requires Holds(j) && |k| == |j| + 1 && x < |j|
    requires forall i :: 0 <= i < |j| && i != x ==> k[i] == j[i]
    requires Face(k[x]) == Face(j[x]) && j[x].direction == k[|j|].direction
    requires forall h :: 0 <= h < |j| && j[h].direction == j[x].direction ==> (j[h].holdState == Held <==> h == x)
    requires IsForward(k[|j|], k[|j|].direction)
    requires k[x].holdState == Released && ReleasedTogether(k[x], k[|j|])
    requires IsHold(j[x].action) && |j[x].emitted| != 1
    ensures Holds(k)
  {
    assert j[x].holdState == Held;
    forall h, r | Successor(k, h, r) && k[h].holdState == Released ensures ReleasedTogether(k[h], k[r]) {
      SuccessorPrefix(j, k, h, r);
    }
    forall h | 0 <= h < |k| && IsHold(k[h].action)
      ensures k[h].holdState == Held <==> NoForward(k, k[h].direction, h, |k|)
      ensures k[h].holdState != Unresolved
    {
      NoForwardLast(j, k, k[h].direction, h);
    }
  }

  // ---- the steps of the core ----

  lemma RejectHolds(c: Core, o: Observation)
    requires Holds(c.journal) && o.wrongSource
    ensures Holds(Record(c, o, Drop).journal)
  {
    QuietAppend(c.journal, Record(c, o, Drop).journal);
  }

  lemma AcceptHolds(c: Core, o: Observation, policy: Action, destination: Address, sent1: bool, sent2: bool)
    requires Holds(c.journal) && SettledUpTo(c, |c.journal|) && !o.wrongSource && !o.auxiliary
    requires SlotMatches(c, o.direction)
    requires Process(Record(c, o, policy), o.direction, Packet(destination, o.payload, |c.journal|), policy, sent1, sent2).ok
    ensures Holds(Process(Record(c, o, policy), o.direction, Packet(destination, o.payload, |c.journal|), policy, sent1, sent2).core.journal)
  {
    var r, d := Record(c, o, policy), o.direction;
    var p := Packet(destination, o.payload, |c.journal|);
    assert SlotHolds(c, d);
    if policy != Forward {
      hide Process, Holds, SettledUpTo, SlotHolds;
      UntouchedBefore(r, d, p, policy, sent1, sent2);
      QuietAppend(c.journal, Process(r, d, p, policy, sent1, sent2).core.journal);
    } else if Slot(c, d).None? {
      ForwardedLast(r, d, p, sent1, sent2);
      hide Process, Holds, SettledUpTo;
      ForwardAppend(c.journal, Process(r, d, p, policy, sent1, sent2).core.journal);
    } else {
      AcceptReleases(c, o, p, sent1, sent2);
    }
  }

  lemma AcceptReleases(c: Core, o: Observation, p: Packet, sent1: bool, sent2: bool)
    requires Holds(c.journal) && SettledUpTo(c, |c.journal|) && !o.wrongSource && !o.auxiliary
    requires SlotMatches(c, o.direction) && Slot(c, o.direction).Some? && p.index == |c.journal|
    requires Process(Record(c, o, Forward), o.direction, p, Forward, sent1, sent2).ok
    ensures Holds(Process(Record(c, o, Forward), o.direction, p, Forward, sent1, sent2).core.journal)
  {
    var r, d := Record(c, o, Forward), o.direction;
    var x := Slot(c, d).value.index;
    assert SlotHolds(c, d) && EntrySettled(c.journal[x]);
    assert SlotHolds(r, d);
    hide Holds, SettledUpTo, Process, ReleaseHeld;
    ReleasedLast(r, d, p, sent1, sent2);
    ReleaseEntries(r, d, p, sent1, sent2);
    ReleaseAppend(c.journal, Process(r, d, p, Forward, sent1, sent2).core.journal, x);
  }

  lemma ForwardedLast(r: Core, d: Direction, p: Packet, sent1: bool, sent2: bool)
    requires p.index == |r.journal| - 1 && Slot(r, d).None?
    requires Process(r, d, p, Forward, sent1, sent2).ok
    ensures var k := Process(r, d, p, Forward, sent1, sent2).core.journal;
            && |k| == |r.journal|
            && (forall i :: 0 <= i < p.index ==> k[i] == r.journal[i])
            && Face(k[p.index]) == Face(r.journal[p.index])
  {
  }

  lemma ReleasedLast(r: Core, d: Direction, p: Packet, sent1: bool, sent2: bool)
    requires p.index == |r.journal| - 1 && Slot(r, d).Some?
    ensures Process(r, d, p, Forward, sent1, sent2) == ReleaseHeld(r, d, p, sent1, sent2)
  {
  }

  lemma UntouchedBefore(r: Core, d: Direction, p: Packet, action: Action, sent1: bool, sent2: bool)
    requires p.index == |r.journal| - 1 && action != Forward
    requires Process(r, d, p, action, sent1, sent2).ok
    ensures var k := Process(r, d, p, action, sent1, sent2).core.journal;
            && |k| == |r.journal|
            && (forall i :: 0 <= i < p.index ==> k[i] == r.journal[i])
            && Face(k[p.index]) == Face(r.journal[p.index])
            && (IsHold(action) ==> k[p.index].holdState == Held)
  {
  }
}
