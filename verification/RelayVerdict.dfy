/** The end of a run: the flush, the self-check, peer order and the generation records. */
module RelayVerdict {
  import opened Common
  import opened RelayTypes
  import opened RelayCore
  import opened RelayLedger
  import opened RelaySettled
  import opened RelayOrder
  import opened RelayRuns
  import opened RelayMachine
  import opened RelayGenerations
  import opened RelayTallies
  import opened RelayHolds
  import opened RelayBudget
  import opened RelayFinal
  import opened RelayInvariant
  import opened RelaySafety

  /** The state a whole run ends in: the loop over `ticks`, then the flush if it was left normally. */
  function Finish(cfg: Config, ticks: seq<Tick>, clientSent: bool, serverSent: bool): State {
    var s := Run(Initial(cfg), ticks);
    if s.phase == Left then Flush(s, clientSent, serverSent) else s
  }

  // ---- the flush ----

  /** A flush sends to the server or to the known client only, so the link stays as it was. */
  lemma FlushSound(s: State, d: Direction, destination: Address, sent: bool)
    requires Sound(s) && Slot(s.core, d).Some?
    requires d == ClientToServer ==> destination == s.cfg.server
    ensures Sound(s.(core := FlushSlot(s.core, d, destination, sent).core))
  {
    FlushKeepsLedger(s.core, d, destination, sent);
    FlushAppends(s.core, d, destination, sent);
    var c := FlushSlot(s.core, d, destination, sent).core;
    hide FlushSlot, Ledger, Within, Summary, SameFaces, AttributionSound, WireSound, OwnersOrdered;
    WithinDependsOnFaces(s.cfg, s.core.journal, c.journal, s.status.elapsed, s.status.auxiliaryCount);
    FacesKeepAttribution(s, c);
    FlushedWire(s, d, destination, c);
  }

  lemma FlushAppends(c: Core, d: Direction, destination: Address, sent: bool)
    requires Slot(c, d).Some?
    ensures var r, h := FlushSlot(c, d, destination, sent).core, Slot(c, d).value;
            && (r.wire == c.wire || r.wire == c.wire + [Emission(d, destination, h.payload, h.index)])
            && r.heldClient == c.heldClient && r.heldServer == c.heldServer
  {
  }

  lemma FacesKeepAttribution(s: State, c: Core)
    requires Attributed(s) && SameFaces(s.core.journal, c.journal)
    ensures |s.owners| == |c.journal| && OwnersOrdered(s.owners)
    ensures forall i :: 0 <= i < |s.owners| ==> AttributionSound(Reconnecting(s), s.link, s.owners[i], c.journal[i])
    ensures s.genA == Summary(c.journal, s.owners, 0) && s.genB == Summary(c.journal, s.owners, 1)
  {
    hide WireSound, OwnersOrdered, Summary;
    SummaryDependsOnFaces(s.core.journal, c.journal, s.owners, 0);
    SummaryDependsOnFaces(s.core.journal, c.journal, s.owners, 1);
    forall i | 0 <= i < |s.owners| ensures AttributionSound(Reconnecting(s), s.link, s.owners[i], c.journal[i]) {
      assert AttributionSound(Reconnecting(s), s.link, s.owners[i], s.core.journal[i]);
      assert Face(s.core.journal[i]) == Face(c.journal[i]);
    }
  }

  /** What the flush adds to the wire goes where datagrams of its direction may go. */
  lemma FlushedWire(s: State, d: Direction, destination: Address, c: Core)
    requires Attributed(s) && SlotsSound(s) && Slot(s.core, d).Some?
    requires d == ClientToServer ==> destination == s.cfg.server
    requires var h := Slot(s.core, d).value;
             c.wire == s.core.wire || c.wire == s.core.wire + [Emission(d, destination, h.payload, h.index)]
    ensures WireSound(s.cfg, s.link, s.owners, c.wire)
  {
    hide Summary, OwnersOrdered;
    var h := Slot(s.core, d).value.index;
    assert AttributionSound(Reconnecting(s), s.link, s.owners[h], s.core.journal[h]);
  }

  lemma FlushClientStage(s: State, sent: bool)
    requires Invariant(s) && s.phase == Left
    ensures var s1 := FlushClientSlot(s, sent);
            && Sound(s1) && s1.link == s.link && s1.cfg == s.cfg && s1.core.heldServer == s.core.heldServer
            && (s1.phase == Left ==> HalfDrained(s1.core))
  {
    hide Ledger, CoreLive, Within, Final;
    if s.core.heldClient.Some? {
      var destination := s.core.heldClient.value.destination;
      FlushSound(s, ClientToServer, destination, sent);
      if FlushSlot(s.core, ClientToServer, destination, sent).ok { FlushClientDrains(s.core, destination, sent); }
    } else {
      NoClientToDrain(s.core);
    }
  }

  lemma FlushServerStage(s: State, sent: bool)
    requires Sound(s) && s.phase == Left && HalfDrained(s.core)
    ensures var s1 := FlushServerSlot(s, sent);
            && Sound(s1) && s1.cfg == s.cfg && (s1.phase == Left ==> Drained(s1.core))
  {
    hide Ledger, CoreLive, Within, Final;
    if s.core.heldServer.Some? {
      FlushSound(s, ServerToClient, s.link.client.value, sent);
      if FlushSlot(s.core, ServerToClient, s.link.client.value, sent).ok {
        FlushServerDrains(s.core, s.link.client.value, sent);
      }
    } else {
      NoServerToDrain(s.core);
    }
  }

  lemma FlushDrains(s: State, clientSent: bool, serverSent: bool)
    requires Invariant(s) && s.phase == Left
    ensures var s' := Flush(s, clientSent, serverSent);
            && Sound(s') && s'.cfg == s.cfg && (s'.phase == Left ==> Drained(s'.core))
  {
    hide Ledger, CoreLive, Within, Final;
    FlushClientStage(s, clientSent);
    var s1 := FlushClientSlot(s, clientSent);
    if !s.status.storeFailed && s1.phase == Left { FlushServerStage(s1, serverSent); }
  }

  // ---- the journal of every exit ----

  lemma FlushBound(c: Core)
    requires Settled(c) && Holds(c.journal) && Tallied(c)
    ensures |c.wire| + InSlots(c) <= 2 * |c.journal|
    ensures Final(c) && FlushReady(c, ClientToServer) && FlushReady(c, ServerToClient)
  {
    SettledIsFinal(c);
  }

  lemma FlushWire(c: Core, d: Direction, destination: Address, sent: bool)
    requires Slot(c, d).Some?
    ensures var c' := FlushSlot(c, d, destination, sent).core;
            && |c'.wire| <= |c.wire| + 1 && |c'.journal| == |c.journal|
            && c'.heldClient == c.heldClient && c'.heldServer == c.heldServer
  {
  }

  lemma FlushClientIsFinal(c: Core, destination: Address, sent: bool)
    requires Settled(c) && Holds(c.journal) && Tallied(c) && c.heldClient.Some?
    ensures var c' := FlushSlot(c, ClientToServer, destination, sent).core;
            && Final(c') && FlushReady(c', ServerToClient) && c'.heldServer == c.heldServer
            && (c.heldServer.Some? ==> |c'.wire| < 2 * |c'.journal|)
  {
    hide Final, FlushSlot, FlushReady, SettledUpTo, Holds, Tallied;
    FlushBound(c);
    LedgerSlots(c);
    hide Ledger;
    FlushFinal(c, ClientToServer, destination, sent);
    FlushWire(c, ClientToServer, destination, sent);
  }

  lemma FlushIsFinal(s: State, clientSent: bool, serverSent: bool)
    requires Invariant(s) && s.phase == Left
    ensures Final(Flush(s, clientSent, serverSent).core)
  {
    hide Ledger, Final, FlushSlot, FlushReady, SettledUpTo, Holds, Tallied, InOrder, LinkSound, SlotsSound,
         Attributed, WithinBudget, LinkLive, HalfDrained;
    var s1 := FlushClientSlot(s, clientSent);
    FlushClientStage(s, clientSent);
    LedgerSlots(s1.core);
    if s.core.heldClient.Some? {
      FlushClientIsFinal(s.core, s.core.heldClient.value.destination, clientSent);
    } else {
      FlushBound(s.core);
    }
    if s1.phase == Left && s1.core.heldServer.Some? && s1.link.client.Some? {
      FlushFinal(s1.core, ServerToClient, s1.link.client.value, serverSent);
    }
  }

  lemma LedgerSlots(c: Core)
    requires Ledger(c)
    ensures SlotMatches(c, ClientToServer) && SlotMatches(c, ServerToClient)
  {
  }

  /** However a run ends, its journal is plausible: only the last entry can be short of emissions,
      only a held one ahead of them, only a deadline release can have failed to send. */
  lemma EveryExitIsFinal(cfg: Config, ticks: seq<Tick>, clientSent: bool, serverSent: bool)
    ensures Final(Finish(cfg, ticks, clientSent, serverSent).core)
  {
    hide Ledger, CoreLive, Within, Final;
    RunInvariant(cfg, ticks);
    var s := Run(Initial(cfg), ticks);
    if s.phase == Left { FlushIsFinal(s, clientSent, serverSent); }
  }

  lemma InitialIsFresh(cfg: Config)
    ensures Fresh(Initial(cfg))
  {
  }

  lemma RunInvariant(cfg: Config, ticks: seq<Tick>)
    ensures Invariant(Run(Initial(cfg), ticks)) && Run(Initial(cfg), ticks).cfg == cfg
  {
    hide Ledger, CoreLive, Within, Final;
    var s := Initial(cfg);
    InitialIsFresh(cfg);
    FreshInvariant(s);
    RunKeeps(s, ticks);
  }

  // ---- the main results ----

  /** Every exit of every run, failed sends and failed stores included: journal ordinals are
      0,1,2,... and 1,2,3,... per direction, counters count, and the emitted lists partition
      0..emitted-1 with every datagram on the wire unaltered. */
  lemma EveryExitIsSound(cfg: Config, ticks: seq<Tick>, clientSent: bool, serverSent: bool)
    ensures Sound(Finish(cfg, ticks, clientSent, serverSent))
    ensures Finish(cfg, ticks, clientSent, serverSent).cfg == cfg
  {
    hide Ledger, CoreLive, Within, Final;
    RunInvariant(cfg, ticks);
    var s := Run(Initial(cfg), ticks);
    if s.phase == Left { FlushDrains(s, clientSent, serverSent); }
  }

  /** The self-check is a theorem: it holds at the end of every run that met no terminal failure. */
  lemma SelfCheckAlwaysHolds(cfg: Config, ticks: seq<Tick>, clientSent: bool, serverSent: bool)
    requires Finish(cfg, ticks, clientSent, serverSent).phase == Left
    ensures var c := Finish(cfg, ticks, clientSent, serverSent).core;
            CountersConsistent(c) && Drained(c)
  {
    hide Ledger, CoreLive, Within, Final;
    RunInvariant(cfg, ticks);
    FlushDrains(Run(Initial(cfg), ticks), clientSent, serverSent);
  }

  // ---- peer order and bytes ----

  /** One direction after a run without terminal failure: an orderly lane, delivered as scheduled. */
  ghost predicate LaneDelivered(c: Core, d: Direction) {
    var l := Lane(c.journal, d);
    && (forall i :: 0 <= i < |l| ==> FromJournal(l[i], c.journal, d))
    && Orderly(l) && WireLane(c.wire, d) == Delivered(l, true)
    && forall k :: 0 <= k < |c.wire| ==> OnWire(c.journal, c.wire, k)
  }

  ghost predicate FromJournal(x: Item, j: seq<Entry>, d: Direction) {
    && x.index < |j| && j[x.index].direction == d && !j[x.index].wrongSource
    && j[x.index].action == x.action
  }

  lemma FinishDelivers(cfg: Config, ticks: seq<Tick>, clientSent: bool, serverSent: bool, d: Direction)
    requires Finish(cfg, ticks, clientSent, serverSent).phase == Left
    ensures LaneDelivered(Finish(cfg, ticks, clientSent, serverSent).core, d)
  {
    EveryExitIsSound(cfg, ticks, clientSent, serverSent);
    SelfCheckAlwaysHolds(cfg, ticks, clientSent, serverSent);
    DrainedOrderly(cfg, ticks, clientSent, serverSent, d);
    hide Finish, Orderly, Delivered, Shape, Flushed, WithinBudget, Attributed, OnWire;
    LaneAccepted(Finish(cfg, ticks, clientSent, serverSent).core.journal, d);
  }

  /** With only forwards and delays in a direction, the peer receives exactly the observed
      datagrams, byte for byte and in the observed order. */
  lemma DelayedPeerOrder(cfg: Config, ticks: seq<Tick>, clientSent: bool, serverSent: bool, d: Direction)
    requires var s := Finish(cfg, ticks, clientSent, serverSent);
             && s.phase == Left
             && forall i :: 0 <= i < |s.core.journal| && s.core.journal[i].direction == d && !s.core.journal[i].wrongSource ==>
                  s.core.journal[i].action == Forward || s.core.journal[i].action == HoldForDelay
    ensures var c := Finish(cfg, ticks, clientSent, serverSent).core;
            && (forall i :: 0 <= i < |Lane(c.journal, d)| ==> Lane(c.journal, d)[i].index < |c.journal|)
            && EmittedPayloads(c.wire, d) == ObservedPayloads(c.journal, Lane(c.journal, d))
  {
    FinishDelivers(cfg, ticks, clientSent, serverSent, d);
    hide Finish, Orderly, Delivered, OnWire, EmittedPayloads, ObservedPayloads;
    var c := Finish(cfg, ticks, clientSent, serverSent).core;
    OrderedPayloads(c.journal, c.wire, Lane(c.journal, d), d);
  }

  /** With only forwards and reorders, it is the observed sequence with each reorder and its
      successor exchanged, no two exchanges overlapping. */
  lemma ReorderedPeerOrder(cfg: Config, ticks: seq<Tick>, clientSent: bool, serverSent: bool, d: Direction)
    requires var s := Finish(cfg, ticks, clientSent, serverSent);
             && s.phase == Left
             && forall i :: 0 <= i < |s.core.journal| && s.core.journal[i].direction == d && !s.core.journal[i].wrongSource ==>
                  s.core.journal[i].action == Forward || s.core.journal[i].action == HoldForReorder
    ensures var c := Finish(cfg, ticks, clientSent, serverSent).core;
            var l := Lane(c.journal, d);
            && (forall i :: 0 <= i < |l| ==> l[i].index < |c.journal|)
            && |EmittedPayloads(c.wire, d)| == |l|
            && (forall p :: 0 <= p < |l| ==>
                  EmittedPayloads(c.wire, d)[p] == ObservedPayloads(c.journal, l)[SwappedPosition(l, p)])
            && (forall p :: 0 <= p < |l| - 1 && l[p].action == HoldForReorder ==> l[p + 1].action == Forward)
  {
    FinishDelivers(cfg, ticks, clientSent, serverSent, d);
    hide Finish, Orderly, Delivered, OnWire, EmittedPayloads, ObservedPayloads;
    var c := Finish(cfg, ticks, clientSent, serverSent).core;
    SwappedPayloads(c.journal, c.wire, Lane(c.journal, d), d);
  }

  lemma DrainedOrderly(cfg: Config, ticks: seq<Tick>, clientSent: bool, serverSent: bool, d: Direction)
    requires Finish(cfg, ticks, clientSent, serverSent).phase == Left
    ensures Orderly(Lane(Finish(cfg, ticks, clientSent, serverSent).core.journal, d))
  {
    RunInvariant(cfg, ticks);
    var s := Run(Initial(cfg), ticks);
    FlushFaces(s, clientSent, serverSent);
    LaneDependsOnFaces(s.core.journal, Flush(s, clientSent, serverSent).core.journal, d);
  }

  lemma FlushFaces(s: State, clientSent: bool, serverSent: bool)
    requires s.phase == Left
    ensures SameFaces(s.core.journal, Flush(s, clientSent, serverSent).core.journal)
  {
    hide FlushSlot;
    var s1 := FlushClientSlot(s, clientSent);
    if s.core.heldClient.Some? {
      FlushKeepsFaces(s.core, ClientToServer, s.core.heldClient.value.destination, clientSent);
    }
    if s1.core.heldServer.Some? && s1.link.client.Some? {
      FlushKeepsFaces(s1.core, ServerToClient, s1.link.client.value, serverSent);
    }
  }

  // ---- generations ----

  /** The two generations never mix: at every exit every datagram counted for a generation was
      exchanged with that generation's own endpoint, the endpoints differ, all of A's datagrams
      come before all of B's, and a server datagram reaches B's endpoint only if counted for B. */
  lemma GenerationsAreSeparate(cfg: Config, ticks: seq<Tick>, clientSent: bool, serverSent: bool)
    requires cfg.scenario == Reconnect
    requires Finish(cfg, ticks, clientSent, serverSent).link.current == 1
    ensures var s := Finish(cfg, ticks, clientSent, serverSent);
            && s.link.retired.Some? && s.link.client.Some? && s.link.client != s.link.retired
            && |s.owners| == |s.core.journal|
            && (forall i :: Owned(s.owners, 0, i) ==> s.owners[i].value.endpoint == s.link.retired.value)
            && (forall i :: Owned(s.owners, 1, i) ==> s.owners[i].value.endpoint == s.link.client.value)
            && (forall i, j :: Owned(s.owners, 0, i) && Owned(s.owners, 1, j) ==> i < j)
            && (forall k :: 0 <= k < |s.core.wire| && s.core.wire[k].direction == ServerToClient ==>
                  (s.core.wire[k].destination == s.link.client.value <==> Owned(s.owners, 1, s.core.wire[k].index)))
  {
    EveryExitIsSound(cfg, ticks, clientSent, serverSent);
    var s := Finish(cfg, ticks, clientSent, serverSent);
    forall i | 0 <= i < |s.owners| && s.owners[i].Some?
      ensures EndpointOf(s.link, s.owners[i].value.generation) == Some(s.owners[i].value.endpoint)
      ensures s.owners[i].value.generation <= 1
    {
      assert AttributionSound(Reconnecting(s), s.link, s.owners[i], s.core.journal[i]);
    }
    forall k | 0 <= k < |s.core.wire| && s.core.wire[k].direction == ServerToClient
      ensures s.core.wire[k].destination == s.link.client.value <==> Owned(s.owners, 1, s.core.wire[k].index)
    {
      assert RoutedTo(s.cfg, s.link, s.core.wire[k].direction, s.core.wire[k].destination, s.owners[s.core.wire[k].index]);
    }
  }

  /** The generation records are faithful at every exit: first and last are the extreme attributed
      ordinals, the packet counts count, an accept presupposes a connect of the same generation, and the first sequenced
      ordinal comes after that accept. Hence A's last ordinal is below B's first. */
  lemma GenerationRecordsAreFaithful(cfg: Config, ticks: seq<Tick>, clientSent: bool, serverSent: bool)
    requires cfg.scenario == Reconnect
    ensures var s := Finish(cfg, ticks, clientSent, serverSent);
            && RangeFacts(s.core.journal, s.owners, 0, s.genA) && RangeFacts(s.core.journal, s.owners, 1, s.genB)
            && CountFacts(s.core.journal, s.owners, 0, s.genA) && CountFacts(s.core.journal, s.owners, 1, s.genB)
            && HandshakeFacts(s.core.journal, s.owners, 0, s.genA) && HandshakeFacts(s.core.journal, s.owners, 1, s.genB)
            && (s.genA.last.Some? && s.genB.first.Some? ==> s.genA.last.value < s.genB.first.value)
  {
    EveryExitIsSound(cfg, ticks, clientSent, serverSent);
    var s := Finish(cfg, ticks, clientSent, serverSent);
    SummaryRange(s.core.journal, s.owners, 0);
    SummaryRange(s.core.journal, s.owners, 1);
    SummaryCounts(s.core.journal, s.owners, 0);
    SummaryCounts(s.core.journal, s.owners, 1);
    SummaryHandshake(s.core.journal, s.owners, 0);
    SummaryHandshake(s.core.journal, s.owners, 1);
  }
}
