/** The tallies of the relay - dropped, duplicated and delayed datagrams, perturbations, a completed
    reorder - as facts about the journal, at every moment between two datagrams, failed or not. */
module RelayTallies {
  import opened Common
  import opened RelayTypes
  import opened RelayCore
  import opened RelayLedger
  import opened RelaySettled

  predicate SentTwice(e: Entry) { e.action == Duplicate && |e.emitted| == 2 }

  ghost function CountDropped(j: seq<Entry>): nat {
    if j == [] then 0 else CountDropped(j[..|j| - 1]) + if j[|j| - 1].action == Drop then 1 else 0
  }

  ghost function CountDuplicated(j: seq<Entry>): nat {
    if j == [] then 0 else CountDuplicated(j[..|j| - 1]) + if SentTwice(j[|j| - 1]) then 1 else 0
  }

  ghost function CountHeldBack(j: seq<Entry>): nat {
    if j == [] then 0 else CountHeldBack(j[..|j| - 1]) + if j[|j| - 1].holdState != NotHeld then 1 else 0
  }

  predicate ReleasedReorder(e: Entry) { e.action == HoldForReorder && e.holdState == Released }

  ghost predicate ReorderDone(j: seq<Entry>) {
    exists i :: 0 <= i < |j| && ReleasedReorder(j[i])
  }

  ghost predicate SlotWaits(c: Core, d: Direction) {
    Slot(c, d).Some? ==> c.journal[Slot(c, d).value.index].holdState != NotHeld
  }

  /** Every tally is the number of the entries it stands for. */
  ghost predicate Tallied(c: Core) {
    && c.counters.dropped == CountDropped(c.journal)
    && c.counters.duplicated == CountDuplicated(c.journal)
    && c.counters.delayed == CountHeldBack(c.journal)
    && c.perturbations == c.counters.dropped + c.counters.duplicated + c.counters.delayed
    && (c.reorderCompleted <==> ReorderDone(c.journal))
    && SlotWaits(c, ClientToServer) && SlotWaits(c, ServerToClient)
  }

  lemma EmptyIsTallied(c: Core)
    requires c == EMPTY_CORE
    ensures Tallied(c)
  {
  }

  /** Both entries count alike. */
  predicate Alike(e: Entry, f: Entry) {
    && e.action == f.action
    && (SentTwice(e) <==> SentTwice(f))
    && (e.holdState == NotHeld <==> f.holdState == NotHeld)
  }

  lemma {:induction false} AlikeTallies(j: seq<Entry>, k: seq<Entry>)
    requires |j| == |k| && forall i :: 0 <= i < |j| ==> Alike(j[i], k[i])
    ensures CountDropped(j) == CountDropped(k) && CountDuplicated(j) == CountDuplicated(k)
    ensures CountHeldBack(j) == CountHeldBack(k)
  {
    if j != [] {
      var n := |j| - 1;
      assert forall i :: 0 <= i < n ==> j[..n][i] == j[i] && k[..n][i] == k[i];
      AlikeTallies(j[..n], k[..n]);
    }
  }

  ghost predicate AlikeBefore(j: seq<Entry>, k: seq<Entry>) {
    |k| == |j| + 1 && forall i :: 0 <= i < |j| ==> Alike(j[i], k[i])
  }

  lemma OneMoreTally(j: seq<Entry>, k: seq<Entry>)
    requires AlikeBefore(j, k)
    ensures CountDropped(k) == CountDropped(j) + if k[|j|].action == Drop then 1 else 0
    ensures CountDuplicated(k) == CountDuplicated(j) + if SentTwice(k[|j|]) then 1 else 0
    ensures CountHeldBack(k) == CountHeldBack(j) + if k[|j|].holdState != NotHeld then 1 else 0
  {
    assert forall i :: 0 <= i < |j| ==> k[..|j|][i] == k[i];
    AlikeTallies(j, k[..|j|]);
  }

  // ---- one step ----

  /** `k` extends `j` by the entry of the datagram just dealt with: `ok` says whether that went well. */
  ghost predicate Extends(j: seq<Entry>, k: seq<Entry>, action: Action, ok: bool) {
    && AlikeBefore(j, k)
    && k[|j|].action == action
    && (SentTwice(k[|j|]) <==> action == Duplicate && ok)
    && (k[|j|].holdState != NotHeld <==> IsHold(action) && ok)
  }

  /** What processing the newest entry does to the tallies; only a release can complete a reorder. */
  ghost predicate TalliesStep(r: Core, c: Core, action: Action, ok: bool) {
    && c.counters.dropped == r.counters.dropped + (if action == Drop then 1 else 0)
    && c.counters.duplicated == r.counters.duplicated + (if action == Duplicate && ok then 1 else 0)
    && c.counters.delayed == r.counters.delayed + (if IsHold(action) && ok then 1 else 0)
    && c.perturbations - r.perturbations
       == c.counters.dropped + c.counters.duplicated + c.counters.delayed
          - r.counters.dropped - r.counters.duplicated - r.counters.delayed
  }

  /** The newest entry is recorded, and slots refer to older entries that wait. */
  ghost predicate Recorded(r: Core, d: Direction, p: Packet, action: Action) {
    && |r.journal| > 0 && p.index == |r.journal| - 1
    && Untouched(r.journal[p.index]) && r.journal[p.index].action == action != AuxiliaryObservation
    && SlotMatches(r, d)
    && (Slot(r, d).Some? ==> Slot(r, d).value.index < p.index)
    && SlotWaits(r, ClientToServer) && SlotWaits(r, ServerToClient)
  }

  lemma ProcessTallies(r: Core, d: Direction, p: Packet, action: Action, sent1: bool, sent2: bool)
    requires Recorded(r, d, p, action)
    ensures var done := Process(r, d, p, action, sent1, sent2);
            && Extends(r.journal[..p.index], done.core.journal, action, done.ok)
            && TalliesStep(r, done.core, action, done.ok)
            && SlotWaits(done.core, ClientToServer) && SlotWaits(done.core, ServerToClient)
  {
    if Slot(r, d).Some? && action == Forward {
      ReleaseTallies(r, d, p, sent1, sent2);
    } else if action == Duplicate {
      DuplicateTallies(r, d, p, sent1, sent2);
    }
  }

  /** Only emissions of entries that are no duplicates tell the two apart. */
  ghost predicate OnlySent(c: Core, c': Core) {
    && |c'.journal| == |c.journal|
    && (forall i :: 0 <= i < |c.journal| ==>
          Alike(c.journal[i], c'.journal[i]) && c'.journal[i].holdState == c.journal[i].holdState)
    && c' == c.(journal := c'.journal, wire := c'.wire,
                counters := c.counters.(emitted := c'.counters.emitted, emittedBytes := c'.counters.emittedBytes))
  }

  lemma EmitTwoAlike(c: Core, d: Direction, a: Packet, b: Packet, sent1: bool, sent2: bool)
    requires a.index < |c.journal| && b.index < |c.journal|
    requires c.journal[a.index].action != Duplicate && c.journal[b.index].action != Duplicate
    ensures OnlySent(c, TryEmitTwo(c, d, a, b, sent1, sent2).core)
  {
  }

  ghost function Freed(c: Core, d: Direction, h: HeldDatagram): Core
    requires h.index < |c.journal|
  {
    var released := SetHold(c, h.index, Released);
    WithSlot(released.(reorderCompleted := released.reorderCompleted || h.reorder), d, None)
  }

  lemma ReleaseSendsAndFrees(r: Core, d: Direction, p: Packet, sent1: bool, sent2: bool) returns (c: Core)
    requires Recorded(r, d, p, Forward) && Slot(r, d).Some?
    ensures OnlySent(r, c)
    ensures var done := ReleaseHeld(r, d, p, sent1, sent2);
            done.core == if done.ok then Freed(c, d, Slot(r, d).value) else c
  {
    var h := Slot(r, d).value;
    var earlier := Packet(h.destination, h.payload, h.index);
    hide TryEmitTwo, OnlySent, SetHold;
    if h.reorder {
      EmitTwoAlike(r, d, p, earlier, sent1, sent2);
      c := TryEmitTwo(r, d, p, earlier, sent1, sent2).core;
    } else {
      EmitTwoAlike(r, d, earlier, p, sent1, sent2);
      c := TryEmitTwo(r, d, earlier, p, sent1, sent2).core;
    }
    assert |c.journal| == |r.journal| by { OnlySentSize(r, c); }
  }

  lemma OnlySentSize(r: Core, c: Core)
    requires OnlySent(r, c)
    ensures |c.journal| == |r.journal|
  {
  }

  lemma FreedTallies(r: Core, c: Core, d: Direction, p: Packet, ok: bool)
    requires Recorded(r, d, p, Forward) && Slot(r, d).Some? && OnlySent(r, c)
    ensures var f := if ok then Freed(c, d, Slot(r, d).value) else c;
            && Extends(r.journal[..p.index], f.journal, Forward, ok)
            && TalliesStep(r, f, Forward, ok)
            && SlotWaits(f, ClientToServer) && SlotWaits(f, ServerToClient)
  {
  }

  lemma ReleaseTallies(r: Core, d: Direction, p: Packet, sent1: bool, sent2: bool)
    requires Recorded(r, d, p, Forward) && Slot(r, d).Some?
    ensures var done := ReleaseHeld(r, d, p, sent1, sent2);
            && Extends(r.journal[..p.index], done.core.journal, Forward, done.ok)
            && TalliesStep(r, done.core, Forward, done.ok)
            && SlotWaits(done.core, ClientToServer) && SlotWaits(done.core, ServerToClient)
  {
    hide ReleaseHeld, Freed, OnlySent, Extends, TalliesStep;
    var c := ReleaseSendsAndFrees(r, d, p, sent1, sent2);
    OnlySentSize(r, c);
    FreedTallies(r, c, d, p, ReleaseHeld(r, d, p, sent1, sent2).ok);
  }

  lemma DuplicateTallies(r: Core, d: Direction, p: Packet, sent1: bool, sent2: bool)
    requires Recorded(r, d, p, Duplicate)
    ensures var done := Process(r, d, p, Duplicate, sent1, sent2);
            && Extends(r.journal[..p.index], done.core.journal, Duplicate, done.ok)
            && TalliesStep(r, done.core, Duplicate, done.ok)
            && SlotWaits(done.core, ClientToServer) && SlotWaits(done.core, ServerToClient)
  {
  }

  // ---- the completed reorder ----

  lemma ProcessReorder(r: Core, d: Direction, p: Packet, action: Action, sent1: bool, sent2: bool)
    requires Recorded(r, d, p, action)
    requires r.reorderCompleted <==> ReorderDone(r.journal)
    ensures var c := Process(r, d, p, action, sent1, sent2).core;
            c.reorderCompleted <==> ReorderDone(c.journal)
  {
    if Slot(r, d).Some? && action == Forward {
      ReleaseReorder(r, d, p, sent1, sent2);
    } else {
      OthersRelease(r, d, p, action, sent1, sent2);
    }
  }

  lemma OthersRelease(r: Core, d: Direction, p: Packet, action: Action, sent1: bool, sent2: bool)
    requires Recorded(r, d, p, action) && (Slot(r, d).None? || action != Forward)
    ensures var c := Process(r, d, p, action, sent1, sent2).core;
            && c.reorderCompleted == r.reorderCompleted
            && (ReorderDone(c.journal) <==> ReorderDone(r.journal))
  {
    var j, k := r.journal, Process(r, d, p, action, sent1, sent2).core.journal;
    LastUnreleased(r, d, p, action, sent1, sent2);
    hide Process;
    assert forall i :: 0 <= i < |k| ==> (ReleasedReorder(k[i]) <==> ReleasedReorder(j[i]));
  }

  lemma LastUnreleased(r: Core, d: Direction, p: Packet, action: Action, sent1: bool, sent2: bool)
    requires Recorded(r, d, p, action) && (Slot(r, d).None? || action != Forward)
    ensures var c := Process(r, d, p, action, sent1, sent2).core;
            && |c.journal| == |r.journal| && c.reorderCompleted == r.reorderCompleted
            && (forall i :: 0 <= i < p.index ==> c.journal[i] == r.journal[i])
            && c.journal[p.index].holdState != Released
  {
  }

  lemma ReleaseReorder(r: Core, d: Direction, p: Packet, sent1: bool, sent2: bool)
    requires Recorded(r, d, p, Forward) && Slot(r, d).Some?
    requires r.reorderCompleted <==> ReorderDone(r.journal)
    ensures var c := ReleaseHeld(r, d, p, sent1, sent2).core;
            c.reorderCompleted <==> ReorderDone(c.journal)
  {
    var h := Slot(r, d).value;
    var sent := ReleaseSendsAndFrees(r, d, p, sent1, sent2);
    hide ReleaseHeld;
    var done := ReleaseHeld(r, d, p, sent1, sent2);
    assert forall i :: 0 <= i < |sent.journal| && i != h.index ==>
      (ReleasedReorder(done.core.journal[i]) <==> ReleasedReorder(r.journal[i]));
    if done.ok {
      assert ReleasedReorder(done.core.journal[h.index]) <==> h.reorder;
    }
  }

  // ---- whole steps ----

  /** Every step keeps the tallies exact, also one that failed half way. */
  lemma TakeKeepsTallies(c: Core, s: Step)
    requires Ledger(c) && Tallied(c) && ProperStep(s)
    ensures Tallied(Take(c, s).core)
  {
    match s
    case Reject(o) =>
      RejectTallies(c, o);
    case Accept(o, policy, destination, sent1, sent2) =>
      AcceptTallies(c, o, policy, destination, sent1, sent2);
  }

  /** Recording an accepted datagram moves no tally yet. */
  lemma RecordedSame(c: Core, o: Observation, policy: Action)
    ensures var r, n := Record(c, o, policy), |c.journal|;
            && AlikeBefore(c.journal, r.journal) && (forall i :: 0 <= i < n ==> r.journal[i] == c.journal[i])
            && Untouched(r.journal[n]) && r.journal[n].action == ObservedAction(o, policy)
            && (ReorderDone(r.journal) <==> ReorderDone(c.journal))
            && r.heldClient == c.heldClient && r.heldServer == c.heldServer && r.reorderCompleted == c.reorderCompleted
            && r.counters.duplicated == c.counters.duplicated && r.counters.delayed == c.counters.delayed
            && r.counters.dropped == c.counters.dropped + (if o.wrongSource && !o.auxiliary then 1 else 0)
            && r.perturbations == c.perturbations + (if o.wrongSource && !o.auxiliary then 1 else 0)
  {
    var r := Record(c, o, policy);
    assert forall i :: 0 <= i < |c.journal| ==> r.journal[i] == c.journal[i];
  }

  lemma RejectTallies(c: Core, o: Observation)
    requires Tallied(c) && o.wrongSource
    ensures Tallied(Record(c, o, Drop))
  {
    var c' := Record(c, o, Drop);
    RecordedSame(c, o, Drop);
    hide Record, CountDropped, CountDuplicated, CountHeldBack, ReorderDone;
    OneMoreTally(c.journal, c'.journal);
  }

  lemma AcceptTallies(c: Core, o: Observation, policy: Action, destination: Address, sent1: bool, sent2: bool)
    requires Ledger(c) && Tallied(c) && !o.wrongSource && !o.auxiliary && policy != AuxiliaryObservation
    ensures Tallied(Process(Record(c, o, policy), o.direction, Packet(destination, o.payload, |c.journal|),
                            policy, sent1, sent2).core)
  {
    var r, d := Record(c, o, policy), o.direction;
    var p := Packet(destination, o.payload, |c.journal|);
    RecordKeepsLedger(c, o, policy);
    RecordedSame(c, o, policy);
    assert SlotMatches(r, d);
    hide Process, Ledger, SlotMatches, Record, ReorderDone, CountDropped, CountDuplicated, CountHeldBack, AlikeBefore;
    assert Recorded(r, d, p, policy);
    assert r.journal[..p.index] == c.journal;
    hide Recorded, Extends, TalliesStep;
    ProcessTallies(r, d, p, policy, sent1, sent2);
    ProcessReorder(r, d, p, policy, sent1, sent2);
    var done := Process(r, d, p, policy, sent1, sent2);
    TalliedAfter(c, r, done.core, policy, done.ok);
  }

  lemma TalliedAfter(c: Core, r: Core, c': Core, action: Action, ok: bool)
    requires Tallied(c) && Extends(c.journal, c'.journal, action, ok) && TalliesStep(r, c', action, ok)
    requires r.counters.dropped == c.counters.dropped && r.counters.duplicated == c.counters.duplicated
    requires r.counters.delayed == c.counters.delayed && r.perturbations == c.perturbations
    requires SlotWaits(c', ClientToServer) && SlotWaits(c', ServerToClient)
    requires c'.reorderCompleted <==> ReorderDone(c'.journal)
    ensures Tallied(c')
  {
    hide ReorderDone, CountDropped, CountDuplicated, CountHeldBack, AlikeBefore, SlotWaits;
    OneMoreTally(c.journal, c'.journal);
  }

  /** The deadline flush releases delays and leaves reorders unresolved, so it moves no tally. */
  lemma FlushKeepsTallies(c: Core, d: Direction, destination: Address, sent: bool)
    requires SlotMatches(c, d) && Slot(c, d).Some? && Tallied(c)
    requires c.journal[Slot(c, d).value.index].holdState == Held
    ensures Tallied(FlushSlot(c, d, destination, sent).core)
  {
    var c' := FlushSlot(c, d, destination, sent).core;
    assert |c'.journal| == |c.journal| && forall i :: 0 <= i < |c.journal| ==>
      Alike(c.journal[i], c'.journal[i]) && (ReleasedReorder(c'.journal[i]) <==> ReleasedReorder(c.journal[i]));
    AlikeTallies(c.journal, c'.journal);
  }

  // ---- counts as numbers of positions ----

  ghost function Dropped(j: seq<Entry>): set<int> {
    set i | 0 <= i < |j| && j[i].action == Drop
  }

  ghost function Duplicated(j: seq<Entry>): set<int> {
    set i | 0 <= i < |j| && SentTwice(j[i])
  }

  ghost function HeldBack(j: seq<Entry>): set<int> {
    set i | 0 <= i < |j| && j[i].holdState != NotHeld
  }

  lemma OneMoreDropped(j: seq<Entry>, n: nat)
    requires |j| == n + 1
    ensures |Dropped(j)| == |Dropped(j[..n])| + if j[n].action == Drop then 1 else 0
  {
    assert Dropped(j) == Dropped(j[..n]) + if j[n].action == Drop then {n} else {};
  }

  lemma OneMoreDuplicated(j: seq<Entry>, n: nat)
    requires |j| == n + 1
    ensures |Duplicated(j)| == |Duplicated(j[..n])| + if SentTwice(j[n]) then 1 else 0
  {
    assert Duplicated(j) == Duplicated(j[..n]) + if SentTwice(j[n]) then {n} else {};
  }

  lemma OneMoreHeldBack(j: seq<Entry>, n: nat)
    requires |j| == n + 1
    ensures |HeldBack(j)| == |HeldBack(j[..n])| + if j[n].holdState != NotHeld then 1 else 0
  {
    assert HeldBack(j) == HeldBack(j[..n]) + if j[n].holdState != NotHeld then {n} else {};
  }

  lemma {:induction false} CountsAreSizes(j: seq<Entry>)
    ensures CountDropped(j) == |Dropped(j)| && CountDuplicated(j) == |Duplicated(j)| && CountHeldBack(j) == |HeldBack(j)|
  {
    if j != [] {
      var n := |j| - 1;
      CountsAreSizes(j[..n]);
      hide Dropped, Duplicated, HeldBack, SentTwice;
      OneMoreDropped(j, n);
      OneMoreDuplicated(j, n);
      OneMoreHeldBack(j, n);
    }
  }
}
