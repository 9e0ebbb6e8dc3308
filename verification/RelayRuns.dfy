/** Runs of the relay's core over any datagrams, with any action for each, any destinations and any
    send results: what the wire carries once every step and the final flush have succeeded. */
module RelayRuns {
  import opened Common
  import opened RelayTypes
  import opened RelayCore
  import opened RelayLedger
  import opened RelaySettled
  import opened RelayTallies
  import opened RelayOrder
  import opened RelayHolds

  /** What holds between datagrams as long as no send has failed. */
  ghost predicate CoreLive(c: Core) {
    Settled(c) && InOrder(c, ClientToServer) && InOrder(c, ServerToClient) && Holds(c.journal) && Tallied(c)
  }

  lemma EmptyCoreLive(c: Core)
    requires c == EMPTY_CORE
    ensures CoreLive(c)
  {
    EmptyIsSettled(c);
    EmptyInOrder(c, ClientToServer);
    EmptyInOrder(c, ServerToClient);
    EmptyHolds(c);
    EmptyIsTallied(c);
    hide InOrder, Settled, Holds, Tallied;
  }

  lemma EmptyHolds(c: Core)
    requires c == EMPTY_CORE
    ensures Holds(c.journal)
  {
  }

  lemma EmptyInOrder(c: Core, d: Direction)
    requires c == EMPTY_CORE
    ensures InOrder(c, d)
  {
    assert Lane(c.journal, d) == [] && WireLane(c.wire, d) == [];
  }

  lemma TakeKeepsLive(c: Core, s: Step)
    requires CoreLive(c) && ProperStep(s) && Take(c, s).ok
    ensures CoreLive(Take(c, s).core)
  {
    hide Tallied, InOrder;
    TakeKeepsTallies(c, s);
    TakeKeepsOrder(c, s, ClientToServer);
    TakeKeepsOrder(c, s, ServerToClient);
    match s
    case Reject(o) =>
      RecordRejected(c, o);
      RejectHolds(c, o);
    case Accept(o, policy, destination, sent1, sent2) =>
      hide Holds, Process, Record, SettledUpTo;
      AcceptSettles(c, o, policy, destination, sent1, sent2);
      AcceptHolds(c, o, policy, destination, sent1, sent2) by { assert SlotMatches(c, o.direction); }
  }

  lemma AcceptSettles(c: Core, o: Observation, policy: Action, destination: Address, sent1: bool, sent2: bool)
    requires Settled(c) && !o.wrongSource && !o.auxiliary && policy != AuxiliaryObservation
    requires Process(Record(c, o, policy), o.direction, Packet(destination, o.payload, |c.journal|), policy, sent1, sent2).ok
    ensures Settled(Process(Record(c, o, policy), o.direction, Packet(destination, o.payload, |c.journal|), policy, sent1, sent2).core)
  {
    RecordAccepted(c, o, policy);
    ProcessSettles(Record(c, o, policy), o.direction, Packet(destination, o.payload, |c.journal|), policy, sent1, sent2);
  }

  // ---- the flush ----

  /** Nothing is owed any more in either direction and the wire carries every lane as scheduled. */
  ghost predicate Drained(c: Core) {
    && Flushed(c, true, true)
    && WireLane(c.wire, ClientToServer) == Delivered(Lane(c.journal, ClientToServer), true)
    && WireLane(c.wire, ServerToClient) == Delivered(Lane(c.journal, ServerToClient), true)
  }

  ghost predicate HalfDrained(c: Core) {
    && Flushed(c, true, c.heldServer.None?)
    && WireLane(c.wire, ClientToServer) == Delivered(Lane(c.journal, ClientToServer), true)
    && InOrder(c, ServerToClient)
  }

  lemma FlushClientDrains(c: Core, destination: Address, sent: bool)
    requires CoreLive(c) && c.heldClient.Some?
    requires FlushSlot(c, ClientToServer, destination, sent).ok
    ensures HalfDrained(FlushSlot(c, ClientToServer, destination, sent).core)
  {
    SettledIsUnflushed(c);
    FlushClient(c, destination, sent, c.heldServer.None?);
    FlushKeepsOrder(c, ClientToServer, destination, sent);
  }

  lemma NoClientToDrain(c: Core)
    requires CoreLive(c) && c.heldClient.None?
    ensures HalfDrained(c)
  {
    SettledIsUnflushed(c);
    FlushDelivered(Lane(c.journal, ClientToServer));
    assert Delivered(Lane(c.journal, ClientToServer), false) + [] == Delivered(Lane(c.journal, ClientToServer), false);
  }

  lemma FlushServerDrains(c: Core, destination: Address, sent: bool)
    requires Ledger(c) && HalfDrained(c) && c.heldServer.Some?
    requires FlushSlot(c, ServerToClient, destination, sent).ok
    ensures Drained(FlushSlot(c, ServerToClient, destination, sent).core)
  {
    FlushServer(c, destination, sent, true);
    FlushKeepsOrder(c, ServerToClient, destination, sent);
  }

  lemma NoServerToDrain(c: Core)
    requires HalfDrained(c) && c.heldServer.None?
    ensures Drained(c)
  {
    FlushDelivered(Lane(c.journal, ServerToClient));
    assert Delivered(Lane(c.journal, ServerToClient), false) + [] == Delivered(Lane(c.journal, ServerToClient), false);
  }

  // ---- payloads ----

  ghost function ObservedPayloads(j: seq<Entry>, l: seq<Item>): seq<string>
    requires forall i :: 0 <= i < |l| ==> l[i].index < |j|
  {
    seq(|l|, i requires 0 <= i < |l| => j[l[i].index].payload)
  }

  ghost function EmittedPayloads(w: seq<Emission>, d: Direction): seq<string> {
    if w == [] then []
    else EmittedPayloads(w[..|w| - 1], d) + if w[|w| - 1].direction == d then [w[|w| - 1].payload] else []
  }

  lemma {:induction false} EmittedBytes(j: seq<Entry>, w: seq<Emission>, d: Direction)
    requires forall k :: 0 <= k < |w| ==> OnWire(j, w, k)
    ensures |EmittedPayloads(w, d)| == |WireLane(w, d)|
    ensures forall p :: 0 <= p < |WireLane(w, d)| ==>
              WireLane(w, d)[p] < |j| && EmittedPayloads(w, d)[p] == j[WireLane(w, d)[p]].payload
  {
    if w != [] {
      var n := |w| - 1;
      assert OnWire(j, w, n);
      forall k | 0 <= k < n ensures OnWire(j, w[..n], k) { assert OnWire(j, w, k); }
      EmittedBytes(j, w[..n], d);
    }
  }

  lemma OrderedPayloads(j: seq<Entry>, w: seq<Emission>, l: seq<Item>, d: Direction)
    requires forall i :: 0 <= i < |l| ==> l[i].index < |j| && (l[i].action == Forward || l[i].action == HoldForDelay)
    requires Orderly(l) && WireLane(w, d) == Delivered(l, true)
    requires forall k :: 0 <= k < |w| ==> OnWire(j, w, k)
    ensures EmittedPayloads(w, d) == ObservedPayloads(j, l)
  {
    DelaysKeepOrder(l);
    EmittedBytes(j, w, d);
  }

  lemma SwappedPayloads(j: seq<Entry>, w: seq<Emission>, l: seq<Item>, d: Direction)
    requires forall i :: 0 <= i < |l| ==> l[i].index < |j| && (l[i].action == Forward || l[i].action == HoldForReorder)
    requires Orderly(l) && WireLane(w, d) == Delivered(l, true)
    requires forall k :: 0 <= k < |w| ==> OnWire(j, w, k)
    ensures |EmittedPayloads(w, d)| == |l|
    ensures forall p :: 0 <= p < |l| ==> EmittedPayloads(w, d)[p] == ObservedPayloads(j, l)[SwappedPosition(l, p)]
    ensures forall p :: 0 <= p < |l| - 1 && l[p].action == HoldForReorder ==> l[p + 1].action == Forward
  {
    ReordersSwapNeighbours(l);
    EmittedBytes(j, w, d);
  }

  lemma {:induction false} LaneAccepted(j: seq<Entry>, d: Direction)
    ensures forall i :: 0 <= i < |Lane(j, d)| ==>
              var n := Lane(j, d)[i].index;
              n < |j| && j[n].direction == d && !j[n].wrongSource && j[n].action == Lane(j, d)[i].action
  {
    if j != [] { LaneAccepted(j[..|j| - 1], d); }
  }

  // ---- runs ----

  predicate Proper(steps: seq<Step>) {
    forall i :: 0 <= i < |steps| ==> ProperStep(steps[i])
  }

  /** The steps one after the other, from the empty core, up to the first that fails. */
  function CoreRun(steps: seq<Step>): Outcome
    requires Proper(steps)
  {
    if steps == [] then Outcome(EMPTY_CORE, true)
    else
      var n := |steps| - 1;
      var before := CoreRun(steps[..n]);
      if before.ok then Take(before.core, steps[n]) else before
  }

  /** Where the flush sends what is still held, and whether those sends succeed. */
  datatype Ending = Ending(toServer: Address, clientSent: bool, toClient: Address, serverSent: bool)

  function FlushCore(c: Core, e: Ending): Outcome {
    var client := if c.heldClient.None? then Outcome(c, true) else FlushSlot(c, ClientToServer, e.toServer, e.clientSent);
    if !client.ok || client.core.heldServer.None? then client
    else FlushSlot(client.core, ServerToClient, e.toClient, e.serverSent)
  }

  function WholeRun(steps: seq<Step>, e: Ending): Outcome
    requires Proper(steps)
  {
    var r := CoreRun(steps);
    if r.ok then FlushCore(r.core, e) else r
  }

  /** However many steps succeed before one fails, ledger and tallies stay exact. */
  lemma {:induction false} CoreRunKeeps(steps: seq<Step>)
    requires Proper(steps)
    ensures var r := CoreRun(steps);
            Ledger(r.core) && Tallied(r.core) && (r.ok ==> CoreLive(r.core))
  {
    hide Ledger, Tallied, Holds, InOrder, SettledUpTo, Take;
    if steps == [] {
      EmptyCoreLive(CoreRun(steps).core);
    } else {
      var n := |steps| - 1;
      CoreRunKeeps(steps[..n]);
      var before := CoreRun(steps[..n]);
      if before.ok {
        TakeKeepsLedger(before.core, steps[n]);
        TakeKeepsTallies(before.core, steps[n]);
        if Take(before.core, steps[n]).ok { TakeKeepsLive(before.core, steps[n]); }
      }
    }
  }

  lemma FlushCoreDrains(c: Core, e: Ending)
    requires CoreLive(c) && FlushCore(c, e).ok
    ensures var c' := FlushCore(c, e).core;
            Drained(c') && Ledger(c') && Tallied(c') && SameFaces(c.journal, c'.journal)
  {
    var c1 := if c.heldClient.None? then c else FlushSlot(c, ClientToServer, e.toServer, e.clientSent).core;
    FlushClientHalf(c, e.toServer, e.clientSent);
    hide FlushSlot, CoreLive, HalfDrained, Ledger, Tallied, Drained;
    if c1.heldServer.None? {
      NoServerToDrain(c1);
    } else {
      FlushServerHalf(c1, e.toClient, e.serverSent);
    }
  }

  lemma FlushClientHalf(c: Core, destination: Address, sent: bool)
    requires CoreLive(c)
    requires c.heldClient.Some? ==> FlushSlot(c, ClientToServer, destination, sent).ok
    ensures var c' := if c.heldClient.None? then c else FlushSlot(c, ClientToServer, destination, sent).core;
            HalfDrained(c') && Ledger(c') && Tallied(c') && SameFaces(c.journal, c'.journal)
  {
    hide Tallied, Flushed, InOrder;
    if c.heldClient.None? {
      NoClientToDrain(c);
    } else {
      assert SlotHolds(c, ClientToServer) && SlotMatches(c, ClientToServer);
      FlushClientDrains(c, destination, sent);
      FlushKeepsLedger(c, ClientToServer, destination, sent);
      FlushKeepsTallies(c, ClientToServer, destination, sent);
    }
  }

  lemma FlushServerHalf(c: Core, destination: Address, sent: bool)
    requires HalfDrained(c) && Ledger(c) && Tallied(c) && c.heldServer.Some?
    requires FlushSlot(c, ServerToClient, destination, sent).ok
    ensures var c' := FlushSlot(c, ServerToClient, destination, sent).core;
            Drained(c') && Ledger(c') && Tallied(c') && SameFaces(c.journal, c'.journal)
  {
    hide Tallied;
    assert SlotHolds(c, ServerToClient) && SlotMatches(c, ServerToClient);
    hide Flushed, InOrder;
    FlushServerDrains(c, destination, sent);
    FlushKeepsLedger(c, ServerToClient, destination, sent);
    FlushKeepsTallies(c, ServerToClient, destination, sent);
  }

  lemma DrainedIsConsistent(c: Core)
    requires Drained(c)
    ensures CountersConsistent(c)
  {
  }

  /** Whatever the actions: after a successful run and flush the identity that the relay recomputes
      holds, every tally is exact, and the wire carries both directions as scheduled. */
  lemma WholeRunDrains(steps: seq<Step>, e: Ending)
    requires Proper(steps) && WholeRun(steps, e).ok
    ensures var c := WholeRun(steps, e).core;
            && CountersConsistent(c) && Drained(c) && Ledger(c) && Tallied(c)
            && SameFaces(CoreRun(steps).core.journal, c.journal)
  {
    hide CoreLive, Drained, Ledger, Tallied, FlushCore, CoreRun, SameFaces;
    CoreRunKeeps(steps);
    FlushCoreDrains(CoreRun(steps).core, e);
    DrainedIsConsistent(WholeRun(steps, e).core);
  }

  // ---- in terms of the steps alone ----

  function Seen(s: Step): Observation {
    match s case Reject(o) => o case Accept(o, _, _, _, _) => o
  }

  /** The accepted steps of one direction, as positions and actions. */
  ghost function StepLane(steps: seq<Step>, d: Direction): seq<Item> {
    if steps == [] then []
    else
      var n := |steps| - 1;
      StepLane(steps[..n], d)
      + if steps[n].Accept? && steps[n].o.direction == d then [Item(n, steps[n].policy)] else []
  }

  /** The entry at each position is the step at this position. */
  ghost predicate JournalOf(j: seq<Entry>, steps: seq<Step>) {
    && |j| == |steps|
    && (forall i :: 0 <= i < |j| ==> j[i].payload == Seen(steps[i]).payload && j[i].direction == Seen(steps[i]).direction)
    && (forall d :: Lane(j, d) == StepLane(steps, d))
  }

  /** The journal grows by the entry of the step and changes nothing recorded before. */
  ghost predicate Grows(j: seq<Entry>, k: seq<Entry>, s: Step) {
    && |k| == |j| + 1 && SameFaces(k[..|j|], j)
    && k[|j|].payload == Seen(s).payload && k[|j|].direction == Seen(s).direction
    && (k[|j|].wrongSource <==> s.Reject?)
    && (s.Accept? ==> k[|j|].action == s.policy)
  }

  lemma TakeAppends(c: Core, s: Step)
    requires Ledger(c) && ProperStep(s)
    ensures Grows(c.journal, Take(c, s).core.journal, s)
  {
    match s
    case Reject(o) =>
      assert Take(c, s).core.journal[..|c.journal|] == c.journal;
    case Accept(o, policy, destination, sent1, sent2) =>
      var r, p := Record(c, o, policy), Packet(destination, o.payload, |c.journal|);
      RecordKeepsLedger(c, o, policy);
      ProcessKeepsLedger(r, o.direction, p, policy, sent1, sent2);
      assert r.journal[..|c.journal|] == c.journal;
      hide Process;
      var j := Take(c, s).core.journal;
      assert forall i :: 0 <= i < |j| ==> Face(r.journal[i]) == Face(j[i]);
  }

  lemma GrowsAsSteps(j: seq<Entry>, k: seq<Entry>, steps: seq<Step>)
    requires |steps| > 0 && Grows(j, k, steps[|steps| - 1])
    requires JournalOf(j, steps[..|steps| - 1])
    ensures JournalOf(k, steps)
  {
    var n := |steps| - 1;
    forall d ensures Lane(k, d) == StepLane(steps, d) {
      LaneDependsOnFaces(k[..n], j, d);
    }
    forall i | 0 <= i < n ensures k[i].payload == Seen(steps[i]).payload && k[i].direction == Seen(steps[i]).direction {
      assert Face(k[..n][i]) == Face(j[i]) && steps[..n][i] == steps[i];
    }
  }

  lemma {:induction false} CoreRunJournal(steps: seq<Step>)
    requires Proper(steps) && CoreRun(steps).ok
    ensures JournalOf(CoreRun(steps).core.journal, steps)
  {
    hide Take, Ledger, Tallied, CoreLive, JournalOf, Grows;
    if steps == [] {
      EmptyJournal(CoreRun(steps).core.journal, steps);
    } else {
      var n := |steps| - 1;
      var before := CoreRun(steps[..n]);
      CoreRunJournal(steps[..n]);
      CoreRunKeeps(steps[..n]);
      TakeAppends(before.core, steps[n]);
      GrowsAsSteps(before.core.journal, CoreRun(steps).core.journal, steps);
    }
  }

  lemma EmptyJournal(j: seq<Entry>, steps: seq<Step>)
    requires j == [] && steps == []
    ensures JournalOf(j, steps)
  {
  }

  ghost function Payloads(steps: seq<Step>, l: seq<nat>): seq<string>
    requires forall i :: 0 <= i < |l| ==> l[i] < |steps|
  {
    seq(|l|, i requires 0 <= i < |l| => Seen(steps[l[i]]).payload)
  }

  /** The bytes on the wire are those of the observed datagrams, in the order of the schedule. */
  lemma WholeRunDelivers(steps: seq<Step>, e: Ending, d: Direction)
    requires Proper(steps) && WholeRun(steps, e).ok
    ensures var schedule := Delivered(StepLane(steps, d), true);
            && Orderly(StepLane(steps, d))
            && (forall i :: 0 <= i < |schedule| ==> schedule[i] < |steps|)
            && EmittedPayloads(WholeRun(steps, e).core.wire, d) == Payloads(steps, schedule)
  {
    hide CoreRun, FlushCore, Orderly, Delivered, CoreLive, Tallied, Shape, Flushed;
    var c, j := WholeRun(steps, e).core, CoreRun(steps).core.journal;
    WholeRunDrains(steps, e);
    CoreRunOrderly(steps, d);
    LaneDependsOnFaces(j, c.journal, d);
    EmittedBytes(c.journal, c.wire, d);
    hide WholeRun, Ledger, Drained;
    forall i | 0 <= i < |c.journal| ensures c.journal[i].payload == Seen(steps[i]).payload {
      assert Face(c.journal[i]) == Face(j[i]);
    }
  }

  lemma CoreRunOrderly(steps: seq<Step>, d: Direction)
    requires Proper(steps) && CoreRun(steps).ok
    ensures Orderly(StepLane(steps, d)) && JournalOf(CoreRun(steps).core.journal, steps)
  {
    hide CoreRun, Ledger, Tallied, Settled, Holds;
    CoreRunKeeps(steps);
    CoreRunJournal(steps);
  }

  /** Any number of delays, each released by the next forward or by the flush: one direction's
      datagrams reach the peer in the observed order. */
  lemma DelaysKeepRunOrder(steps: seq<Step>, e: Ending, d: Direction)
    requires Proper(steps) && WholeRun(steps, e).ok
    requires forall i :: 0 <= i < |steps| && steps[i].Accept? && steps[i].o.direction == d ==>
               steps[i].policy == Forward || steps[i].policy == HoldForDelay
    ensures var l := Indices(StepLane(steps, d));
            && (forall i :: 0 <= i < |l| ==> l[i] < |steps|)
            && EmittedPayloads(WholeRun(steps, e).core.wire, d) == Payloads(steps, l)
  {
    hide WholeRun;
    WholeRunDelivers(steps, e, d);
    StepLaneActions(steps, d);
    DelaysKeepOrder(StepLane(steps, d));
  }

  /** Any number of reorders: each one changes places with the datagram after it, and these
      exchanges never overlap. */
  lemma ReordersSwapRunNeighbours(steps: seq<Step>, e: Ending, d: Direction)
    requires Proper(steps) && WholeRun(steps, e).ok
    requires forall i :: 0 <= i < |steps| && steps[i].Accept? && steps[i].o.direction == d ==>
               steps[i].policy == Forward || steps[i].policy == HoldForReorder
    ensures var l, out := StepLane(steps, d), EmittedPayloads(WholeRun(steps, e).core.wire, d);
            && |out| == |l|
            && (forall p :: 0 <= p < |l| ==>
                  var q := l[SwappedPosition(l, p)].index;
                  q < |steps| && out[p] == Seen(steps[q]).payload)
            && (forall p :: 0 <= p < |l| - 1 && l[p].action == HoldForReorder ==> l[p + 1].action == Forward)
  {
    hide WholeRun, EmittedPayloads, Orderly, Delivered, StepLane;
    WholeRunDelivers(steps, e, d);
    StepLaneActions(steps, d);
    ReordersSwapNeighbours(StepLane(steps, d));
  }

  lemma {:induction false} StepLaneActions(steps: seq<Step>, d: Direction)
    ensures forall i :: 0 <= i < |StepLane(steps, d)| ==> ComesFrom(StepLane(steps, d)[i], steps, d)
  {
    if steps != [] {
      var n := |steps| - 1;
      var l := StepLane(steps[..n], d);
      StepLaneActions(steps[..n], d);
      forall i | 0 <= i < |l| ensures ComesFrom(l[i], steps, d) {
        assert ComesFrom(l[i], steps[..n], d);
      }
    }
  }

  ghost predicate ComesFrom(x: Item, steps: seq<Step>, d: Direction) {
    && x.index < |steps| && steps[x.index].Accept? && steps[x.index].o.direction == d
    && x.action == steps[x.index].policy
  }

  // ---- which runs succeed ----

  function HeldBytes(c: Core): nat {
    (if c.heldClient.Some? then |c.heldClient.value.payload| else 0)
    + (if c.heldServer.Some? then |c.heldServer.value.payload| else 0)
  }

  /** What was sent and what is held never exceed twice what was observed. */
  ghost predicate Room(c: Core) {
    c.counters.emittedBytes + HeldBytes(c) <= 2 * c.counters.rawBytes
  }

  /** Room for a datagram that may be sent twice, or once after a held one. */
  ghost predicate RoomFor(c: Core, p: Packet) {
    && c.counters.emitted + 1 < SIZE_MAX
    && c.counters.emittedBytes + HeldBytes(c) + 2 * |p.payload| <= 2 * c.counters.rawBytes <= SIZE_MAX
  }

  lemma TwoSucceed(c: Core, d: Direction, a: Packet, b: Packet)
    requires a.index < |c.journal| && b.index < |c.journal| && c.counters.emitted + 1 < SIZE_MAX
    requires c.counters.emittedBytes + |a.payload| + |b.payload| <= SIZE_MAX
    ensures var r := TryEmitTwo(c, d, a, b, true, true);
            && r.ok && r.core.heldClient == c.heldClient && r.core.heldServer == c.heldServer
            && r.core.counters == c.counters.(emitted := c.counters.emitted + 2,
                                              emittedBytes := c.counters.emittedBytes + |a.payload| + |b.payload|)
  {
  }

  lemma ReleaseSucceeds(c: Core, d: Direction, p: Packet)
    requires p.index < |c.journal| && RoomFor(c, p) && Slot(c, d).Some?
    ensures var r := ReleaseHeld(c, d, p, true, true);
            && r.ok && Room(r.core) && r.core.counters.observed == c.counters.observed
            && r.core.counters.rawBytes == c.counters.rawBytes
  {
    var h := Slot(c, d).value;
    var earlier := Packet(h.destination, h.payload, h.index);
    hide TryEmitTwo;
    TwoSucceed(c, d, p, earlier);
    TwoSucceed(c, d, earlier, p);
  }

  lemma ProcessSucceeds(c: Core, d: Direction, p: Packet, action: Action)
    requires p.index < |c.journal| && RoomFor(c, p)
    ensures var r := Process(c, d, p, action, true, true);
            && (r.ok <==> !(IsHold(action) && Slot(c, d).Some?))
            && (r.ok ==> Room(r.core)) && r.core.counters.observed == c.counters.observed
            && r.core.counters.rawBytes == c.counters.rawBytes
  {
    hide TryEmitTwo, ReleaseHeld;
    if Slot(c, d).Some? && action == Forward {
      ReleaseSucceeds(c, d, p);
    } else if action == Duplicate {
      TwoSucceed(c, d, p, p);
    }
  }

  lemma StepSucceeds(c: Core, o: Observation, policy: Action, destination: Address)
    requires Settled(c) && Room(c) && !o.wrongSource && !o.auxiliary && policy != AuxiliaryObservation
    requires 2 * (c.counters.observed + 1) <= SIZE_MAX && 2 * (c.counters.rawBytes + |o.payload|) <= SIZE_MAX
    ensures var done := Process(Record(c, o, policy), o.direction, Packet(destination, o.payload, |c.journal|), policy, true, true);
            && (done.ok <==> !(IsHold(policy) && Slot(c, o.direction).Some?))
            && (done.ok ==> Room(done.core))
            && done.core.counters.observed == c.counters.observed + 1
            && done.core.counters.rawBytes == c.counters.rawBytes + |o.payload|
  {
    EmittedAtMostTwice(c);
    hide Settled, Process;
    ProcessSucceeds(Record(c, o, policy), o.direction, Packet(destination, o.payload, |c.journal|), policy);
  }

  lemma EmittedAtMostTwice(c: Core)
    requires Settled(c)
    ensures c.counters.emitted + InSlots(c) <= 2 * c.counters.observed
  {
    hide Ledger, EntrySettled, SlotHolds;
  }

  predicate AllSent(steps: seq<Step>) {
    forall i :: 0 <= i < |steps| && steps[i].Accept? ==> steps[i].sent1 && steps[i].sent2
  }

  function TotalBytes(steps: seq<Step>): nat {
    if steps == [] then 0 else TotalBytes(steps[..|steps| - 1]) + |Seen(steps[|steps| - 1]).payload|
  }

  /** The counters cannot overflow. */
  predicate Countable(steps: seq<Step>) {
    2 * |steps| <= SIZE_MAX && 2 * TotalBytes(steps) <= SIZE_MAX
  }

  ghost predicate OrderlySteps(steps: seq<Step>) {
    Orderly(StepLane(steps, ClientToServer)) && Orderly(StepLane(steps, ServerToClient))
  }

  ghost predicate Roomy(c: Core, steps: seq<Step>) {
    Room(c) && c.counters.observed == |steps| && c.counters.rawBytes == TotalBytes(steps)
  }

  lemma LaneOneMore(steps: seq<Step>, d: Direction)
    requires steps != []
    ensures var n := |steps| - 1;
            Orderly(StepLane(steps, d)) <==>
            && Orderly(StepLane(steps[..n], d))
            && (steps[n].Accept? && steps[n].o.direction == d && IsHold(steps[n].policy)
                ==> OpenHold(StepLane(steps[..n], d)).None?)
  {
    var n := |steps| - 1;
    var l := StepLane(steps[..n], d);
    hide Orderly, OpenHold;
    if steps[n].Accept? && steps[n].o.direction == d {
      OrderlyAppend(l, Item(n, steps[n].policy));
    } else {
      assert StepLane(steps, d) == l;
    }
  }

  lemma OrderlyOneMore(steps: seq<Step>)
    requires steps != []
    ensures var n := |steps| - 1;
            OrderlySteps(steps) <==>
            && OrderlySteps(steps[..n])
            && (steps[n].Accept? && IsHold(steps[n].policy)
                ==> OpenHold(StepLane(steps[..n], steps[n].o.direction)).None?)
  {
    var n := |steps| - 1;
    LaneOneMore(steps, ClientToServer);
    LaneOneMore(steps, ServerToClient);
    hide Orderly, OpenHold, StepLane;
  }

  lemma SlotIsOpenHold(steps: seq<Step>, d: Direction)
    requires Proper(steps) && CoreRun(steps).ok
    ensures Slot(CoreRun(steps).core, d).None? <==> OpenHold(StepLane(steps, d)).None?
    ensures Settled(CoreRun(steps).core)
  {
    hide CoreRun, Settled, Orderly, Delivered, OpenHold, Tallied, Holds;
    CoreRunKeeps(steps);
    CoreRunJournal(steps);
  }

  /** When every send succeeds, a run fails exactly because a second datagram of a direction is to be
      held while one waits, which the list of actions alone decides. */
  lemma {:induction false} SucceedsExactly(steps: seq<Step>)
    requires Proper(steps) && AllSent(steps) && Countable(steps)
    ensures CoreRun(steps).ok <==> OrderlySteps(steps)
    ensures CoreRun(steps).ok ==> Roomy(CoreRun(steps).core, steps)
  {
    if steps == [] {
      EmptyIsOrderly(steps);
    } else {
      var n := |steps| - 1;
      OrderlyOneMore(steps);
      SucceedsExactly(steps[..n]);
      hide OrderlySteps, OpenHold, StepLane, Roomy, Take;
      if CoreRun(steps[..n]).ok { LastSucceeds(steps); }
    }
  }

  lemma EmptyIsOrderly(steps: seq<Step>)
    requires steps == []
    ensures OrderlySteps(steps) && CoreRun(steps).ok && Roomy(CoreRun(steps).core, steps)
  {
    assert forall d :: StepLane(steps, d) == [];
  }

  /** Room, and the two counters that a step raises. */
  lemma RoomAfter(c: Core, s: Step, observed: nat, bytes: nat)
    requires ProperStep(s) && (s.Accept? ==> s.sent1 && s.sent2)
    requires Settled(c) && Room(c) && c.counters.observed == observed && c.counters.rawBytes == bytes
    requires 2 * (observed + 1) <= SIZE_MAX && 2 * (bytes + |Seen(s).payload|) <= SIZE_MAX
    ensures var done := Take(c, s);
            && (done.ok <==> (s.Accept? && IsHold(s.policy) ==> Slot(c, s.o.direction).None?))
            && (done.ok ==> Room(done.core) && done.core.counters.observed == observed + 1
                            && done.core.counters.rawBytes == bytes + |Seen(s).payload|)
  {
    hide Process, Settled, Record, Room;
    match s
    case Reject(o) =>
      RejectRoom(c, o);
    case Accept(o, policy, destination, sent1, sent2) =>
      StepSucceeds(c, o, policy, destination);
      assert sent1 && sent2;
  }

  lemma RejectRoom(c: Core, o: Observation)
    requires Room(c)
    ensures var r := Record(c, o, Drop);
            && Room(r) && r.counters.observed == c.counters.observed + 1
            && r.counters.rawBytes == c.counters.rawBytes + |o.payload|
  {
  }

  lemma LastSucceeds(steps: seq<Step>)
    requires steps != [] && Proper(steps) && AllSent(steps) && Countable(steps)
    requires var before := CoreRun(steps[..|steps| - 1]);
             before.ok && Roomy(before.core, steps[..|steps| - 1])
    ensures var n := |steps| - 1;
            CoreRun(steps).ok <==> (steps[n].Accept? && IsHold(steps[n].policy)
                                    ==> OpenHold(StepLane(steps[..n], steps[n].o.direction)).None?)
    ensures CoreRun(steps).ok ==> Roomy(CoreRun(steps).core, steps)
  {
    var n := |steps| - 1;
    var c := CoreRun(steps[..n]).core;
    hide OpenHold, StepLane, Take, Settled, Room;
    SlotIsOpenHold(steps[..n], if steps[n].Accept? then steps[n].o.direction else ClientToServer);
    RoomAfter(c, steps[n], n, TotalBytes(steps[..n]));
  }

  /** The same with the flush: all sends succeed, so the whole run does exactly when no second hold
      is asked for. */
  lemma WholeRunSucceedsExactly(steps: seq<Step>, e: Ending)
    requires Proper(steps) && AllSent(steps) && Countable(steps) && e.clientSent && e.serverSent
    ensures WholeRun(steps, e).ok <==> OrderlySteps(steps)
  {
    hide CoreRun, FlushCore, OrderlySteps, CoreLive;
    SucceedsExactly(steps);
    if CoreRun(steps).ok {
      CoreRunKeeps(steps);
      FlushSucceeds(CoreRun(steps).core, e);
    }
  }

  lemma FlushSucceeds(c: Core, e: Ending)
    requires CoreLive(c) && Room(c) && e.clientSent && e.serverSent
    requires 2 * c.counters.observed <= SIZE_MAX && 2 * c.counters.rawBytes <= SIZE_MAX
    ensures FlushCore(c, e).ok
  {
    EmittedAtMostTwice(c);
    hide CoreLive, FlushSlot;
    if c.heldClient.Some? { OneFlushSucceeds(c, ClientToServer, e.toServer); }
    var c1 := if c.heldClient.None? then c else FlushSlot(c, ClientToServer, e.toServer, true).core;
    if c1.heldServer.Some? { OneFlushSucceeds(c1, ServerToClient, e.toClient); }
  }

  lemma OneFlushSucceeds(c: Core, d: Direction, destination: Address)
    requires Slot(c, d).Some? && c.counters.emitted < SIZE_MAX
    requires c.counters.emittedBytes + |Slot(c, d).value.payload| <= SIZE_MAX
    ensures var r := FlushSlot(c, d, destination, true);
            && r.ok && r.core.heldClient == c.heldClient && r.core.heldServer == c.heldServer
            && r.core.counters == c.counters.(emitted := c.counters.emitted + 1,
                                              emittedBytes := c.counters.emittedBytes + |Slot(c, d).value.payload|)
  {
  }
}
