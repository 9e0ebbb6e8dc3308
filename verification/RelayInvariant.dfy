/** Safety of the capture loop over every run: the ledger at every exit, balanced accounting and
    peer order while no send has failed, and the separation of the two client generations. */
module RelayInvariant {
  import opened Common
  import opened RelayTypes
  import opened RelayCore
  import opened RelayLedger
  import opened RelaySettled
  import opened RelayOrder
  import opened RelayRuns
  import opened RelayMachine
  import opened RelayGenerations
  import opened RelayTallies
  import opened RelayHolds
  import opened RelayBudget
  import opened RelayFinal

  // ---- what holds at every exit ----

  ghost predicate LinkSound(s: State) {
    var l := s.link;
    && l.current <= 1
    && (!Reconnecting(s) ==> !l.prepared && l.current == 0)
    && (l.prepared <==> l.retired.Some?) && (l.prepared ==> l.tailEmitter)
    && (l.requested ==> l.prepared) && (l.completed ==> l.requested) && (l.quiet <==> l.completed)
    && (l.distinct <==> l.current == 1)
    && (l.current == 1 ==> l.completed && l.client.Some? && l.client != l.retired)
  }

  /** No datagram is ever held while reconnecting; a held server datagram implies a known client. */
  ghost predicate SlotsSound(s: State) {
    && (Reconnecting(s) ==> s.core.heldClient.None? && s.core.heldServer.None?)
    && (s.core.heldServer.Some? ==> s.link.client.Some?)
    && (s.core.heldClient.Some? ==> s.core.heldClient.value.destination == s.cfg.server)
  }

  /** The endpoint of generation A is the retired one once retirement is prepared. */
  ghost function EndpointOf(l: Link, g: nat): Option<Address> {
    if g == 0 && l.prepared then l.retired else l.client
  }

  ghost predicate AttributionSound(reconnecting: bool, l: Link, o: Option<Attribution>, e: Entry) {
    o.Some? ==>
      && reconnecting
      && o.value.generation <= l.current
      && EndpointOf(l, o.value.generation) == Some(o.value.endpoint)
      && !e.wrongSource
  }

  ghost predicate OwnersOrdered(owners: Owners) {
    forall i, j :: 0 <= i < j < |owners| && owners[i].Some? && owners[j].Some? ==>
      owners[i].value.generation <= owners[j].value.generation
  }

  /** Client datagrams go to the server; a server datagram goes to the endpoint of the generation
      it is counted for, and an uncounted one of a reconnect run only to the retired endpoint. */
  ghost predicate RoutedTo(cfg: Config, l: Link, d: Direction, destination: Address, owner: Option<Attribution>) {
    match d
    case ClientToServer => destination == cfg.server
    case ServerToClient =>
      && (owner.Some? ==> destination == owner.value.endpoint)
      && (owner.None? && cfg.scenario == Reconnect ==> l.retired == Some(destination))
  }

  ghost predicate WireSound(cfg: Config, l: Link, owners: Owners, wire: seq<Emission>) {
    forall k :: 0 <= k < |wire| ==>
      && wire[k].index < |owners|
      && RoutedTo(cfg, l, wire[k].direction, wire[k].destination, owners[wire[k].index])
  }

  ghost predicate Attributed(s: State) {
    && |s.owners| == |s.core.journal|
    && (forall i :: 0 <= i < |s.owners| ==> AttributionSound(Reconnecting(s), s.link, s.owners[i], s.core.journal[i]))
    && OwnersOrdered(s.owners)
    && s.genA == Summary(s.core.journal, s.owners, 0)
    && s.genB == Summary(s.core.journal, s.owners, 1)
    && WireSound(s.cfg, s.link, s.owners, s.core.wire)
  }

  ghost predicate WithinBudget(s: State) {
    Within(s.cfg, s.core.journal, s.status.elapsed, s.status.auxiliaryCount)
  }

  ghost predicate Sound(s: State) {
    Ledger(s.core) && LinkSound(s) && SlotsSound(s) && Attributed(s) && WithinBudget(s)
  }

  // ---- what holds while no failure has ended the run ----

  ghost predicate LinkLive(s: State) {
    && (s.link.prepared && !s.link.completed ==> s.link.client == s.link.retired)
    && (s.link.completed && s.link.current == 0 ==> s.link.client.None?)
  }

  ghost predicate Invariant(s: State) {
    Sound(s) && Final(s.core) && (!s.phase.Terminal? ==> CoreLive(s.core) && LinkLive(s))
  }

  /** Nothing has happened yet. */
  ghost predicate Fresh(s: State) {
    && |s.core.journal| == 0 && |s.core.wire| == 0 && s.core.heldClient.None? && s.core.heldServer.None?
    && s.core.counters == ZERO_COUNTERS && s.core.perturbations == 0 && !s.core.reorderCompleted
    && |s.owners| == 0 && s.phase == Looping && s.genA == s.genB == NEW_GENERATION && s.status.auxiliaryCount == 0
    && s.link == Link(None, None, false, 0, false, false, false, false, false)
  }

  lemma FreshInvariant(s: State)
    requires Fresh(s)
    ensures Invariant(s)
  {
    FreshSound(s);
    hide CoreLive, Ledger, Final, LinkSound, SlotsSound, Attributed, WithinBudget, LinkLive;
    assert s.core == EMPTY_CORE;
    EmptyCoreLive(s.core);
    LiveIsFinal(s.core);
  }

  lemma LiveIsFinal(c: Core)
    requires CoreLive(c)
    ensures Ledger(c) && Final(c)
  {
    hide Ledger, Tallied, Holds, SettledUpTo, InOrder, Final;
    SettledIsFinal(c);
  }

  lemma FreshSound(s: State)
    requires Fresh(s)
    ensures LinkSound(s) && SlotsSound(s) && Attributed(s) && WithinBudget(s) && LinkLive(s)
  {
  }

  /** The budget and the phase are all that the status and the phase have to do with. */
  lemma StatusKeeps(s: State, status: Status, p: Phase)
    requires Invariant(s) && !s.phase.Terminal? && !p.Terminal?
    requires WithinBudget(s.(status := status))
    ensures Invariant(s.(status := status, phase := p))
  {
    hide Ledger, CoreLive, Within, Final;
  }

  // ---- recording ----

  function PolicyOf(s: State, o: Observation): Action {
    CaptureAction(s.cfg.scenario, o.direction, DirectionOrdinal(s.core.counters, o), s.cfg.perturbation)
  }

  ghost predicate MayCount(s: State, endpoint: Address) {
    Reconnecting(s) ==> EndpointOf(s.link, s.link.current) == Some(endpoint)
  }

  lemma AttributeKeeps(s: State, c': Core, e: Entry, counted: bool, endpoint: Address)
    requires Attributed(s) && LinkSound(s)
    requires c'.journal == s.core.journal + [e] && c'.wire == s.core.wire
    requires counted ==> Reconnecting(s) && !e.wrongSource && MayCount(s, endpoint)
    ensures var s' := Attribute(s.(core := c'), e.direction, e.payload, counted, endpoint, |s.core.journal|);
            && Attributed(s')
            && s'.owners == s.owners + [if counted then Some(Attribution(s.link.current, endpoint)) else None]
            && s' == s.(core := c', owners := s'.owners, genA := s'.genA, genB := s'.genB)
  {
    var o := if counted then Some(Attribution(s.link.current, endpoint)) else None;
    SummaryAppend(s.core.journal, s.owners, e, o, 0);
    SummaryAppend(s.core.journal, s.owners, e, o, 1);
    var s' := Attribute(s.(core := c'), e.direction, e.payload, counted, endpoint, |s.core.journal|);
    forall i, j | 0 <= i < j < |s'.owners| && s'.owners[i].Some? && s'.owners[j].Some?
      ensures s'.owners[i].value.generation <= s'.owners[j].value.generation
    {
      assert AttributionSound(Reconnecting(s), s.link, s.owners[i], s.core.journal[i]);
    }
  }

  /** A recording that fails leaves journal, counters and attributions as they were. */
  lemma FailedRecording(s: State, d: Direction, payload: string, wrongSource: bool, auxiliary: bool,
                        attribute: bool, endpoint: Address, delay: nat, stored: bool)
    requires Invariant(s) && s.phase == Looping
    ensures var r := RecordObservation(s, d, payload, wrongSource, auxiliary, attribute, endpoint, delay, stored);
            !r.ok ==>
              && r.state.core == s.core && r.state.owners == s.owners && r.state.link == s.link
              && r.state.phase == Left && Invariant(r.state)
  {
    hide Ledger, CoreLive, Within, Final;
    var r := RecordObservation(s, d, payload, wrongSource, auxiliary, attribute, endpoint, delay, stored);
    if !r.ok {
      WithinLater(s.cfg, s.core.journal, s.status.elapsed, s.status.elapsed + delay, s.status.auxiliaryCount);
      StatusKeeps(s, r.state.status, Left);
    }
  }

  /** A rejected datagram is recorded; an auxiliary one is then counted by the caller. */
  lemma RejectedRecording(s: State, d: Direction, payload: string, auxiliary: bool, endpoint: Address, delay: nat,
                stored: bool)
    requires Invariant(s) && s.phase == Looping
    requires auxiliary ==> s.cfg.functional && d == ClientToServer && IsAuxiliaryQuery(payload)
                           && s.status.auxiliaryCount < MAX_AUXILIARY_QUERIES
    ensures var r := RecordObservation(s, d, payload, true, auxiliary, true, endpoint, delay, stored);
            var admitted := s.status.auxiliaryCount + if auxiliary then 1 else 0;
            r.ok ==>
              && Invariant(r.state.(status := r.state.status.(auxiliaryCount := admitted)))
              && r.state.phase == Looping && r.state.link == s.link
              && r.state.status.auxiliaryCount == s.status.auxiliaryCount
  {
    hide Ledger, CoreLive, Within, Final;
    var r := RecordObservation(s, d, payload, true, auxiliary, true, endpoint, delay, stored);
    if r.ok {
      var s0 := Later(s, delay);
      var o := Observation(d, payload, true, auxiliary, Stamp(s0));
      WithinLater(s.cfg, s.core.journal, s.status.elapsed, s0.status.elapsed, s.status.auxiliaryCount);
      RecordRejection(s0, o, endpoint);
    }
  }

  lemma RecordRejection(s: State, o: Observation, endpoint: Address)
    requires Ledger(s.core) && CoreLive(s.core) && Attributed(s) && LinkSound(s) && SlotsSound(s) && LinkLive(s) && WithinBudget(s)
    requires o.wrongSource && o.timestamp == Stamp(s)
    requires BudgetViolation(s.core.counters, s.cfg.limits, o.direction, |o.payload|).None?
    requires o.auxiliary ==> s.cfg.functional && o.direction == ClientToServer && IsAuxiliaryQuery(o.payload)
                             && s.status.auxiliaryCount < MAX_AUXILIARY_QUERIES
    ensures var c' := Record(s.core, o, PolicyOf(s, o));
            var s' := Attribute(s.(core := c'), o.direction, o.payload, false, endpoint, |s.core.journal|);
            var admitted := s.status.auxiliaryCount + if o.auxiliary then 1 else 0;
            Invariant(s'.(status := s'.status.(auxiliaryCount := admitted)))
  {
    hide Ledger, CoreLive, Within, Final;
    var c' := Record(s.core, o, PolicyOf(s, o));
    RejectedCore(s.core, o, PolicyOf(s, o));
    AttributeKeeps(s, c', c'.journal[|s.core.journal|], false, endpoint);
    RecordWithin(s.cfg, s.core, o, s.status.elapsed, s.status.auxiliaryCount);
  }

  lemma RejectedCore(c: Core, o: Observation, policy: Action)
    requires CoreLive(c) && o.wrongSource
    ensures CoreLive(Record(c, o, policy))
    ensures Ledger(Record(c, o, policy)) && Final(Record(c, o, policy))
  {
    hide Tallied, InOrder, Ledger, Holds, SettledUpTo;
    assert Record(c, o, policy) == Record(c, o, Drop);
    TakeKeepsLive(c, Reject(o));
    SettledIsFinal(Record(c, o, Drop));
  }

  // ---- recording and processing ----

  /** What recording and processing an accepted datagram does to the core. */
  lemma AcceptedCore(c: Core, o: Observation, policy: Action, destination: Address, sent1: bool, sent2: bool)
    requires CoreLive(c) && !o.wrongSource && !o.auxiliary && policy != AuxiliaryObservation
    requires IsHold(policy) ==> Slot(c, o.direction).None?
    ensures var r := Record(c, o, policy);
            var done := Process(r, o.direction, Packet(destination, o.payload, |c.journal|), policy, sent1, sent2);
            && Ledger(done.core) && SameFaces(r.journal, done.core.journal) && Final(done.core)
            && (done.ok ==> CoreLive(done.core))
  {
    var r := Record(c, o, policy);
    var p := Packet(destination, o.payload, |c.journal|);
    hide Tallied, InOrder, Holds, SettledUpTo, Process;
    RecordAccepted(c, o, policy);
    ProcessKeepsLedger(r, o.direction, p, policy, sent1, sent2);
    if Process(r, o.direction, p, policy, sent1, sent2).ok {
      TakeKeepsLive(c, Accept(o, policy, destination, sent1, sent2));
      SettledIsFinal(Process(r, o.direction, p, policy, sent1, sent2).core);
    } else {
      FailedStep(c, o, policy, destination, sent1, sent2);
    }
  }

  /** `w'` extends `w` by datagrams of direction `d`, each being `p` or the held one. */
  ghost predicate WireGrows(w: seq<Emission>, w': seq<Emission>, d: Direction, p: Packet, held: Option<HeldDatagram>) {
    && |w| <= |w'| && w'[..|w|] == w
    && forall k :: |w| <= k < |w'| ==>
         && w'[k].direction == d
         && ((w'[k].index == p.index && w'[k].destination == p.destination)
             || (held.Some? && w'[k].index == held.value.index && w'[k].destination == held.value.destination))
  }

  lemma TwoWire(c: Core, d: Direction, a: Packet, b: Packet, sent1: bool, sent2: bool, p: Packet,
                held: Option<HeldDatagram>)
    requires a.index < |c.journal| && b.index < |c.journal|
    requires a == p || (held.Some? && a.index == held.value.index && a.destination == held.value.destination)
    requires b == p || (held.Some? && b.index == held.value.index && b.destination == held.value.destination)
    ensures var c' := TryEmitTwo(c, d, a, b, sent1, sent2).core;
            WireGrows(c.wire, c'.wire, d, p, held) && c'.heldClient == c.heldClient && c'.heldServer == c.heldServer
  {
  }

  /** Every datagram that processing puts on the wire is either the current one, sent to its
      destination, or the held one, sent to the destination it was held for. */
  lemma ProcessedWire(c: Core, d: Direction, p: Packet, action: Action, sent1: bool, sent2: bool)
    requires p.index < |c.journal|
    ensures var c' := Process(c, d, p, action, sent1, sent2).core;
            && WireGrows(c.wire, c'.wire, d, p, Slot(c, d))
            && Slot(c', Other(d)) == Slot(c, Other(d))
            && (Slot(c', d) == Slot(c, d) || Slot(c', d).None?
                || (IsHold(action) && Slot(c', d).value.destination == p.destination))
  {
    if Slot(c, d).Some? && action == Forward {
      var h := Slot(c, d).value;
      var earlier := Packet(h.destination, h.payload, h.index);
      TwoWire(c, d, p, earlier, sent1, sent2, p, Slot(c, d));
      TwoWire(c, d, earlier, p, sent1, sent2, p, Slot(c, d));
    } else if action == Duplicate {
      TwoWire(c, d, p, p, sent1, sent2, p, Slot(c, d));
    }
  }

  ghost predicate MayRelay(s: State, d: Direction, destination: Address, attribute: bool, endpoint: Address) {
    && (attribute ==> MayCount(s, endpoint))
    && (d == ClientToServer ==> destination == s.cfg.server)
    && (d == ServerToClient ==> destination == endpoint)
    && (d == ServerToClient && Reconnecting(s) && !attribute ==> s.link.retired == Some(destination))
    && (d == ServerToClient && !Reconnecting(s) ==> s.link.client.Some?)
  }

  /** `m` is a live state that has just recorded the accepted observation `o`. */
  ghost predicate Ready(c: Core, m: State, o: Observation, policy: Action, destination: Address) {
    && !o.wrongSource && !o.auxiliary && policy != AuxiliaryObservation
    && m.core == Record(c, o, policy) && m.phase == Looping
    && Attributed(m) && LinkSound(m) && SlotsSound(m) && LinkLive(m) && WithinBudget(m)
    && (Reconnecting(m) ==> policy == Forward)
    && RoutedTo(m.cfg, m.link, o.direction, destination, m.owners[|c.journal|])
    && (o.direction == ServerToClient && !Reconnecting(m) ==> m.link.client.Some?)
  }

  lemma AcceptedRecording(s: State, d: Direction, destination: Address, payload: string, attribute: bool,
                          endpoint: Address, delay: nat, stored: bool)
    requires Sound(s) && LinkLive(s) && s.phase == Looping
    requires MayRelay(s, d, destination, attribute, endpoint)
    ensures var r := RecordObservation(s, d, payload, false, false, attribute, endpoint, delay, stored);
            var o := Observation(d, payload, false, false, Stamp(Later(s, delay)));
            r.ok ==>
              && Ready(s.core, r.state, o, PolicyOf(s, o), destination)
              && r.state.link == s.link && r.state.cfg == s.cfg
  {
    hide Ledger, LinkSound, SlotsSound, Attributed, Within, LinkLive, Ready, RecordNow, BudgetViolation;
    var s0 := Later(s, delay);
    var o := Observation(d, payload, false, false, Stamp(s0));
    WithinLater(s.cfg, s.core.journal, s.status.elapsed, s0.status.elapsed, s.status.auxiliaryCount);
    LaterKeeps(s, delay);
    if BudgetViolation(s0.core.counters, s0.cfg.limits, d, |payload|).None? && stored {
      RecordAcceptance(s0, o, destination, attribute, endpoint);
    }
  }

  lemma LaterKeeps(s: State, delay: nat)
    requires LinkSound(s) && SlotsSound(s) && Attributed(s) && LinkLive(s)
    ensures var l := Later(s, delay);
            LinkSound(l) && SlotsSound(l) && Attributed(l) && LinkLive(l)
  {
  }

  lemma PolicyIsPlain(s: State, o: Observation)
    ensures PolicyOf(s, o) != AuxiliaryObservation && (Reconnecting(s) ==> PolicyOf(s, o) == Forward)
  {
  }

  lemma RecordAcceptance(s: State, o: Observation, destination: Address, attribute: bool, endpoint: Address)
    requires Sound(s) && LinkLive(s) && s.phase == Looping
    requires MayRelay(s, o.direction, destination, attribute, endpoint)
    requires !o.wrongSource && !o.auxiliary && o.timestamp == Stamp(s)
    requires BudgetViolation(s.core.counters, s.cfg.limits, o.direction, |o.payload|).None?
    ensures var s' := RecordNow(s, o, attribute, endpoint);
            Ready(s.core, s', o, PolicyOf(s, o), destination) && s'.link == s.link && s'.cfg == s.cfg
  {
    PolicyIsPlain(s, o);
    hide Ledger, Within, Summary, CaptureAction, BudgetViolation, NextCounters, DirectionOrdinal, ObserveGeneration;
    var c' := Record(s.core, o, PolicyOf(s, o));
    AttributeKeeps(s, c', c'.journal[|s.core.journal|], Reconnecting(s) && attribute, endpoint);
    RecordWithin(s.cfg, s.core, o, s.status.elapsed, s.status.auxiliaryCount);
  }

  lemma RelayKeeps(s: State, d: Direction, destination: Address, payload: string, attribute: bool, endpoint: Address,
                   delay: nat, stored: bool, sent1: bool, sent2: bool, failure: nat)
    requires Invariant(s) && s.phase == Looping
    requires MayRelay(s, d, destination, attribute, endpoint)
    ensures var s' := Relay(s, d, destination, payload, attribute, endpoint, delay, stored, sent1, sent2, failure);
            Invariant(s') && s'.link == s.link && s'.cfg == s.cfg
  {
    hide Ledger, CoreLive, Within, Final;
    FailedRecording(s, d, payload, false, false, attribute, endpoint, delay, stored);
    AcceptedRecording(s, d, destination, payload, attribute, endpoint, delay, stored);
    var r := RecordObservation(s, d, payload, false, false, attribute, endpoint, delay, stored);
    if r.ok {
      var o := Observation(d, payload, false, false, Stamp(Later(s, delay)));
      AcceptedRelay(s.core, r.state, o, PolicyOf(s, o), destination, sent1, sent2, failure);
    }
  }

  lemma LiveShape(c: Core)
    requires CoreLive(c)
    ensures Shape(c) && SlotMatches(c, ClientToServer) && SlotMatches(c, ServerToClient)
  {
  }

  lemma AtMostOneHold(c: Core, m: State, o: Observation, policy: Action, destination: Address)
    requires CoreLive(c) && Ready(c, m, o, policy, destination)
    ensures IsHold(policy) ==> Slot(c, o.direction).None?
  {
    hide CoreLive, Attributed, LinkSound, SlotsSound, LinkLive, RoutedTo, Shape, Within;
    LiveShape(c);
    var d := o.direction;
    if Slot(c, d).Some? {
      RecordKeepsShape(c, o, policy);
      OnlyHold(m.cfg, m.core, m.status.elapsed, m.status.auxiliaryCount, Slot(c, d).value.index, |c.journal|);
    }
  }

  lemma AcceptedRelay(c: Core, m: State, o: Observation, policy: Action, destination: Address, sent1: bool,
                sent2: bool, failure: nat)
    requires CoreLive(c) && Ready(c, m, o, policy, destination)
    ensures var s' := Deliver(m, o.direction, Packet(destination, o.payload, |c.journal|), sent1, sent2, failure);
            Invariant(s') && s'.link == m.link && s'.cfg == m.cfg
  {
    AtMostOneHold(c, m, o, policy, destination);
    AcceptedCore(c, o, policy, destination, sent1, sent2);
    WithinDependsOnFaces(m.cfg, m.core.journal,
                         Process(m.core, o.direction, Packet(destination, o.payload, |c.journal|), policy, sent1, sent2).core.journal,
                         m.status.elapsed, m.status.auxiliaryCount);
    var p := Packet(destination, o.payload, |c.journal|);
    ProcessedState(m, o.direction, p, policy, Process(m.core, o.direction, p, policy, sent1, sent2));
  }

  lemma ProcessedState(s: State, d: Direction, p: Packet, action: Action, done: Outcome)
    requires Attributed(s) && LinkSound(s) && SlotsSound(s)
    requires p.index < |s.core.journal|
    requires Reconnecting(s) ==> action == Forward
    requires RoutedTo(s.cfg, s.link, d, p.destination, s.owners[p.index])
    requires d == ServerToClient && !Reconnecting(s) ==> s.link.client.Some?
    requires SameFaces(s.core.journal, done.core.journal)
    requires exists sent1, sent2 :: done == Process(s.core, d, p, action, sent1, sent2)
    ensures var s' := s.(core := done.core);
            Attributed(s') && LinkSound(s') && SlotsSound(s')
  {
    var sent1, sent2 :| done == Process(s.core, d, p, action, sent1, sent2);
    ProcessedWire(s.core, d, p, action, sent1, sent2);
    var s' := s.(core := done.core);
    SummaryDependsOnFaces(s.core.journal, done.core.journal, s.owners, 0);
    SummaryDependsOnFaces(s.core.journal, done.core.journal, s.owners, 1);
    forall i | 0 <= i < |s'.owners| ensures AttributionSound(Reconnecting(s'), s'.link, s'.owners[i], done.core.journal[i]) {
      assert AttributionSound(Reconnecting(s), s.link, s.owners[i], s.core.journal[i]);
      assert Face(s.core.journal[i]) == Face(done.core.journal[i]);
    }
    forall k | 0 <= k < |done.core.wire|
      ensures && done.core.wire[k].index < |s.owners|
              && RoutedTo(s'.cfg, s'.link, done.core.wire[k].direction, done.core.wire[k].destination, s.owners[done.core.wire[k].index])
    {
      if k < |s.core.wire| { assert done.core.wire[k] == s.core.wire[k]; }
      else if Slot(s.core, d).Some? {
        var i := Slot(s.core, d).value.index;
        assert AttributionSound(Reconnecting(s), s.link, s.owners[i], s.core.journal[i]);
      }
    }
  }
}
