/** What every exit of the relay leaves in the journal, complete or not: the few ways in which a
    failed send can leave an entry short of, or ahead of, what its state says. */
module RelayFinal {
  import opened Common
  import opened RelayTypes
  import opened RelayCore
  import opened RelayLedger
  import opened RelaySettled
  import opened RelayTallies
  import opened RelayHolds
  import opened RelayMachine
  import opened RelayBudget
  import opened JournalRules

  ghost predicate PlausibleEntry(e: Entry, last: bool) {
    && (IsHold(e.action) <==> e.holdState != NotHeld)
    && Consecutive(e.emitted)
    && (|| |e.emitted| == Due(e)
        || (last && !IsHold(e.action) && !e.wrongSource && |e.emitted| < Due(e))
        || (e.holdState == Held && |e.emitted| == 1)
        || ((e.holdState == Released || e.holdState == Unresolved) && e.emitted == []))
  }

  ghost predicate Plausible(j: seq<Entry>) {
    forall i :: 0 <= i < |j| ==> PlausibleEntry(j[i], i == |j| - 1)
  }

  /** A hold released without any forward after it was released by the deadline, so it is a delay. */
  ghost predicate DeadlineReleases(j: seq<Entry>) {
    forall h :: 0 <= h < |j| && IsHold(j[h].action) && j[h].holdState == Released ==>
      NoForward(j, j[h].direction, h, |j|) ==> j[h].action == HoldForDelay
  }

  ghost predicate Final(c: Core) {
    && |c.wire| <= 2 * |c.journal|
    && Plausible(c.journal)
    && HoldHistory(c.journal)
    && DeadlineReleases(c.journal)
    && Tallied(c)
  }

  /** The slot's entry is held, unsent, and nothing has been forwarded in its direction since. */
  ghost predicate FlushReady(c: Core, d: Direction) {
    Slot(c, d).Some? ==>
      var h := Slot(c, d).value.index;
      c.journal[h].holdState == Held && c.journal[h].emitted == [] && NoForward(c.journal, d, h, |c.journal|)
  }

  lemma SettledIsFinal(c: Core)
    requires Settled(c) && Holds(c.journal) && Tallied(c)
    ensures Final(c) && FlushReady(c, ClientToServer) && FlushReady(c, ServerToClient)
  {
    hide Tallied;
    forall i | 0 <= i < |c.journal| ensures PlausibleEntry(c.journal[i], i == |c.journal| - 1) {
      assert EntrySettled(c.journal[i]);
    }
    forall d | Slot(c, d).Some? ensures FlushReady(c, d) {
      assert SlotHolds(c, d);
      assert EntrySettled(c.journal[Slot(c, d).value.index]);
    }
  }

  // ---- a processing step that failed ----

  /** `k` is the journal after the step failed: the slot's entry may have been sent already, and
      the last entry may be short of emissions. */
  ghost predicate FailedFrom(j: seq<Entry>, k: seq<Entry>, slot: Option<HeldDatagram>) {
    && |k| == |j| + 1
    && (forall i :: 0 <= i < |j| ==>
          || k[i] == j[i]
          || (slot.Some? && slot.value.index == i
              && exists n: nat :: k[i] == j[i].(emitted := [n], delivered := true)))
    && k[|j|].holdState == NotHeld
    && |k[|j|].emitted| <= 1
  }

  lemma FailedProcess(r: Core, d: Direction, p: Packet, action: Action, sent1: bool, sent2: bool)
    requires |r.journal| > 0 && p.index == |r.journal| - 1
    requires Untouched(r.journal[p.index])
    requires Slot(r, d).Some? ==> Slot(r, d).value.index < p.index && r.journal[Slot(r, d).value.index].emitted == []
    requires !Process(r, d, p, action, sent1, sent2).ok
    ensures var r' := Process(r, d, p, action, sent1, sent2).core;
            && FailedFrom(r.journal[..p.index], r'.journal, Slot(r, d))
            && |r'.wire| <= |r.wire| + 1
            && Face(r'.journal[p.index]) == Face(r.journal[p.index])
            && (action == Forward || action == Duplicate || IsHold(action))
  {
    if Slot(r, d).Some? && action == Forward {
      FailedRelease(r, d, p, sent1, sent2);
    } else if action == Duplicate {
      assert r.journal[p.index].emitted + [r.counters.emitted] == [r.counters.emitted];
    }
  }

  lemma FailedPair(r: Core, d: Direction, a: Packet, b: Packet, sent1: bool, sent2: bool)
    requires a.index < |r.journal| && b.index < |r.journal| && r.journal[a.index].emitted == []
    requires !TryEmitTwo(r, d, a, b, sent1, sent2).ok
    ensures var r' := TryEmitTwo(r, d, a, b, sent1, sent2).core;
            r' == r || (&& r'.journal == r.journal[a.index := r.journal[a.index].(emitted := [r.counters.emitted], delivered := true)]
                        && |r'.wire| == |r.wire| + 1)
  {
    assert r.journal[a.index].emitted + [r.counters.emitted] == [r.counters.emitted];
  }

  lemma FailedRelease(r: Core, d: Direction, p: Packet, sent1: bool, sent2: bool)
    requires |r.journal| > 0 && p.index == |r.journal| - 1
    requires Untouched(r.journal[p.index])
    requires Slot(r, d).Some? && Slot(r, d).value.index < p.index && r.journal[Slot(r, d).value.index].emitted == []
    requires !ReleaseHeld(r, d, p, sent1, sent2).ok
    ensures var r' := ReleaseHeld(r, d, p, sent1, sent2).core;
            && FailedFrom(r.journal[..p.index], r'.journal, Slot(r, d))
            && |r'.wire| <= |r.wire| + 1
            && Face(r'.journal[p.index]) == Face(r.journal[p.index])
  {
    var h := Slot(r, d).value;
    var earlier := Packet(h.destination, h.payload, h.index);
    if h.reorder {
      FailedPair(r, d, p, earlier, sent1, sent2);
    } else {
      FailedPair(r, d, earlier, p, sent1, sent2);
    }
    var r' := ReleaseHeld(r, d, p, sent1, sent2).core;
    hide TryEmitTwo;
    assert r'.journal[h.index] != r.journal[h.index] ==>
             r'.journal[h.index] == r.journal[h.index].(emitted := [r.counters.emitted], delivered := true);
  }

  lemma FailureIsFinal(j: seq<Entry>, k: seq<Entry>, d: Direction, slot: Option<HeldDatagram>)
    requires Holds(j) && FailedFrom(j, k, slot)
    requires forall i :: 0 <= i < |j| ==> EntrySettled(j[i])
    requires slot.Some? ==> slot.value.index < |j| && j[slot.value.index].holdState == Held
    requires var e := k[|j|];
             !e.wrongSource && (e.action == Forward || e.action == Duplicate)
    ensures Plausible(k) && HoldHistory(k) && DeadlineReleases(k)
  {
    forall i | 0 <= i < |k| ensures PlausibleEntry(k[i], i == |k| - 1) {
      if i < |j| { assert EntrySettled(j[i]); }
    }
    forall h, r | Successor(k, h, r) && k[h].holdState == Released ensures ReleasedTogether(k[h], k[r]) {
      SuccessorPrefix(j, k, h, r);
    }
    forall h | 0 <= h < |k| && IsHold(k[h].action) && k[h].holdState == Released
      ensures !NoForward(k, k[h].direction, h, |k|)
    {
      NoForwardLast(j, k, k[h].direction, h);
    }
  }

  /** The scenarios hold at most one datagram: next to a hold, every accepted datagram of the same
      direction is forwarded. */
  lemma OnlyHold(cfg: Config, c: Core, elapsed: nat, auxiliary: nat, h: nat, q: nat)
    requires Shape(c) && Within(cfg, c.journal, elapsed, auxiliary)
    requires h < q < |c.journal| && c.journal[h].direction == c.journal[q].direction
    requires IsHold(c.journal[h].action) && !c.journal[h].wrongSource && !c.journal[q].wrongSource
    ensures c.journal[q].action == Forward
  {
    var j := c.journal;
    assert EntryShape(j, h) && EntryShape(j, q);
    assert EntryWithin(cfg, elapsed, j[h]) && EntryWithin(cfg, elapsed, j[q]);
    CountGrows(j, h, q);
  }

  lemma {:induction false} CountGrows(j: seq<Entry>, h: nat, q: nat)
    requires h < q < |j| && j[h].direction == j[q].direction
    ensures CountDirection(j[..h + 1], j[q].direction) < CountDirection(j[..q + 1], j[q].direction)
  {
    CountMonotone(j, j[q].direction, h + 1, q);
    assert j[..q + 1][..q] == j[..q];
  }

  lemma {:induction false} CountMonotone(j: seq<Entry>, d: Direction, a: nat, b: nat)
    requires a <= b <= |j|
    ensures CountDirection(j[..a], d) <= CountDirection(j[..b], d)
    decreases b - a
  {
    if a < b {
      CountMonotone(j, d, a, b - 1);
      assert j[..b][..b - 1] == j[..b - 1];
    }
  }

  // ---- the flush ----

  /** `k` is `j` with the open hold `h` released or left unresolved by the deadline, and sent or not. */
  ghost predicate FlushedFrom(j: seq<Entry>, k: seq<Entry>, h: nat) {
    && |k| == |j| && h < |j|
    && (forall i :: 0 <= i < |j| && i != h ==> k[i] == j[i])
    && IsHold(j[h].action) && Face(k[h]) == Face(j[h])
    && k[h].holdState == (if j[h].action == HoldForReorder then Unresolved else Released)
    && |k[h].emitted| <= 1
  }

  lemma FlushedPlausible(j: seq<Entry>, k: seq<Entry>, h: nat)
    requires Plausible(j) && FlushedFrom(j, k, h)
    ensures Plausible(k)
  {
    forall i | 0 <= i < |k| ensures PlausibleEntry(k[i], i == |k| - 1) {
      assert PlausibleEntry(j[i], i == |j| - 1);
    }
  }

  lemma FlushedHistory(j: seq<Entry>, k: seq<Entry>, h: nat)
    requires FlushedFrom(j, k, h) && NoForward(j, j[h].direction, h, |j|)
    requires HoldHistory(j) && DeadlineReleases(j)
    ensures HoldHistory(k) && DeadlineReleases(k)
  {
    assert SameFaces(j, k);
    SuccessorDependsOnFaces(j, k, 0, 0);
    forall a, r | Successor(k, a, r) && k[a].holdState == Released ensures ReleasedTogether(k[a], k[r]) {
      SuccessorDependsOnFaces(j, k, a, r);
    }
  }

  lemma FlushSlotEntries(c: Core, d: Direction, destination: Address, sent: bool)
    requires SlotMatches(c, d) && Slot(c, d).Some? && FlushReady(c, d)
    ensures var c' := FlushSlot(c, d, destination, sent).core;
            && FlushedFrom(c.journal, c'.journal, Slot(c, d).value.index)
            && c.journal[Slot(c, d).value.index].direction == d
            && |c'.wire| <= |c.wire| + 1 && Slot(c', Other(d)) == Slot(c, Other(d))
  {
    var h, n := Slot(c, d).value.index, c.counters.emitted;
    assert c.journal[h].emitted + [n] == [n];
  }

  lemma FlushFinal(c: Core, d: Direction, destination: Address, sent: bool)
    requires Final(c) && SlotMatches(c, d) && Slot(c, d).Some? && FlushReady(c, d)
    requires |c.wire| < 2 * |c.journal|
    ensures var c' := FlushSlot(c, d, destination, sent).core;
            Final(c') && (SlotMatches(c, Other(d)) && FlushReady(c, Other(d)) ==> FlushReady(c', Other(d)))
  {
    FlushSlotEntries(c, d, destination, sent);
    FlushKeepsTallies(c, d, destination, sent);
    hide FlushSlot, Plausible, HoldHistory, DeadlineReleases, Tallied;
    var j, k, h := c.journal, FlushSlot(c, d, destination, sent).core.journal, Slot(c, d).value.index;
    FlushedPlausible(j, k, h);
    FlushedHistory(j, k, h);
    assert SameFaces(j, k);
    SuccessorDependsOnFaces(j, k, 0, 0);
  }

  // ---- a step as a whole ----

  lemma FailedStep(c: Core, o: Observation, policy: Action, destination: Address, sent1: bool, sent2: bool)
    requires Settled(c) && Holds(c.journal) && Tallied(c)
    requires !o.wrongSource && !o.auxiliary && policy != AuxiliaryObservation
    requires IsHold(policy) ==> Slot(c, o.direction).None?
    requires !Process(Record(c, o, policy), o.direction, Packet(destination, o.payload, |c.journal|), policy, sent1, sent2).ok
    ensures Final(Process(Record(c, o, policy), o.direction, Packet(destination, o.payload, |c.journal|), policy, sent1, sent2).core)
  {
    var r, d := Record(c, o, policy), o.direction;
    var p := Packet(destination, o.payload, |c.journal|);
    hide Process, Ledger, Tallied, SettledUpTo, EntrySettled, Record, Holds, FailedFrom, Plausible, HoldHistory, DeadlineReleases;
    SlotUnsent(c, d);
    AcceptTallies(c, o, policy, destination, sent1, sent2);
    RecordedLast(c, o, policy);
    HoldSucceeds(r, d, p, policy, sent1, sent2);
    FailedProcess(r, d, p, policy, sent1, sent2);
    SettledEntries(c);
    FailureIsFinal(c.journal, Process(r, d, p, policy, sent1, sent2).core.journal, d, Slot(c, d));
  }

  lemma SlotUnsent(c: Core, d: Direction)
    requires Settled(c)
    ensures |c.wire| <= 2 * |c.journal|
    ensures Slot(c, d).Some? ==>
              var e := c.journal[Slot(c, d).value.index];
              e.holdState == Held && e.emitted == []
  {
    assert SlotHolds(c, d);
    if Slot(c, d).Some? { assert EntrySettled(c.journal[Slot(c, d).value.index]); }
  }

  lemma SettledEntries(c: Core)
    requires Settled(c)
    ensures forall i :: 0 <= i < |c.journal| ==> EntrySettled(c.journal[i])
  {
    hide Ledger, EntrySettled;
  }

  lemma HoldSucceeds(r: Core, d: Direction, p: Packet, action: Action, sent1: bool, sent2: bool)
    requires p.index < |r.journal|
    ensures IsHold(action) && Slot(r, d).None? ==> Process(r, d, p, action, sent1, sent2).ok
  {
  }

  lemma RecordedLast(c: Core, o: Observation, policy: Action)
    requires !o.wrongSource && !o.auxiliary
    ensures var r := Record(c, o, policy);
            && |r.journal| == |c.journal| + 1 && r.journal[..|c.journal|] == c.journal
            && Untouched(r.journal[|c.journal|]) && r.journal[|c.journal|].action == policy
            && !r.journal[|c.journal|].wrongSource
            && r.wire == c.wire && r.heldClient == c.heldClient && r.heldServer == c.heldServer
  {
    assert Record(c, o, policy).journal[..|c.journal|] == c.journal;
  }
}
