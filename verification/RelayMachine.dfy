/** The capture loop of the relay as a state machine: one `Tick` is one turn of the loop, with
    everything the outside world decides (signals, datagrams, send results, clocks, the answers
    of the reconnect transition object) as its fields. */
module RelayMachine {
  import opened Common
  import opened RelayTypes
  import opened RelayCore

  datatype Config = Config(scenario: Scenario, functional: bool, limits: Limits,
                           perturbation: Perturbation, server: Address)

  /** Transport facts the relay keeps about one client generation. */
  datatype Generation = Generation(
    first: Option<nat>,
    last: Option<nat>,
    connectionless: nat,
    connect: bool,
    accept: bool,
    firstSequenced: Option<nat>,
    clientPackets: nat,
    serverPackets: nat)

  const NEW_GENERATION := Generation(None, None, 0, false, false, None, 0, 0)

  function ObserveGeneration(g: Generation, d: Direction, payload: string, ordinal: nat): Generation {
    var g1 := g.(first := if g.first.None? then Some(ordinal) else g.first, last := Some(ordinal));
    var g2 := if d == ClientToServer then g1.(clientPackets := g1.clientPackets + 1)
              else g1.(serverPackets := g1.serverPackets + 1);
    if IsConnectionless(payload) then
      g2.(connectionless := g2.connectionless + 1,
          connect := g2.connect || (d == ClientToServer && IsConnect(payload)),
          accept := g2.accept || (d == ServerToClient && g2.connect && IsAccept(payload)))
    else if d == ServerToClient && g2.accept && g2.firstSequenced.None? then
      g2.(firstSequenced := Some(ordinal))
    else g2
  }

  predicate GenerationComplete(g: Generation) {
    && g.first.Some? && g.last.Some? && g.connectionless != 0
    && g.connect && g.accept && g.firstSequenced.Some?
    && g.clientPackets != 0 && g.serverPackets != 0
  }

  /** Which client generation an observed datagram was counted for, and the client endpoint it
      came from or was sent to. */
  datatype Attribution = Attribution(generation: nat, endpoint: Address)

  datatype Phase =
    | Looping
    | Left                       // the loop was left normally; a flush and a verdict follow
    | Terminal(exitCode: nat)    // the run was finalized as failed

  /** The client endpoint and the progress of the reconnect handshake. */
  datatype Link = Link(
    client: Option<Address>,
    retired: Option<Address>,
    tailEmitter: bool,
    current: nat,                // index of the current generation
    prepared: bool,
    requested: bool,
    completed: bool,
    quiet: bool,
    distinct: bool)

  datatype Status = Status(
    wrongSource: bool,
    stopRequested: bool,
    limitReached: Option<BudgetError>,
    auxiliaryCount: nat,
    storeFailed: bool,
    elapsed: nat)

  datatype State = State(
    cfg: Config,
    core: Core,
    link: Link,
    genA: Generation,
    genB: Generation,
    owners: seq<Option<Attribution>>,
    status: Status,
    phase: Phase)

  function Initial(cfg: Config): State {
    State(cfg, EMPTY_CORE, Link(None, None, false, 0, false, false, false, false, false),
          NEW_GENERATION, NEW_GENERATION, [], Status(false, false, None, 0, false, 0), Looping)
  }

  predicate Reconnecting(s: State) { s.cfg.scenario == Reconnect }

  function Fail(s: State, code: nat): State { s.(phase := Terminal(code)) }

  // ---- recording ----

  datatype Recording = Recording(state: State, ok: bool)

  function Stamp(s: State): nat {
    if s.status.elapsed <= s.cfg.limits.maxTimestamp then s.status.elapsed else s.cfg.limits.maxTimestamp
  }

  function Later(s: State, delay: nat): State {
    s.(status := s.status.(elapsed := s.status.elapsed + delay))
  }

  /** `stored` says whether the digest and the raw file could be made. A failed recording leaves
      the journal and the counters alone and ends the loop. */
  function TryRecord(s: State, o: Observation, attribute: bool, endpoint: Address, stored: bool): (r: Recording)
    ensures r.ok ==> |r.state.core.journal| == |s.core.journal| + 1
  {
    var violation := BudgetViolation(s.core.counters, s.cfg.limits, o.direction, |o.payload|);
    if violation.Some? then Recording(s.(status := s.status.(limitReached := violation), phase := Left), false)
    else if !stored then Recording(s.(status := s.status.(storeFailed := true), phase := Left), false)
    else Recording(RecordNow(s, o, attribute, endpoint), true)
  }

  function RecordObservation(s: State, d: Direction, payload: string, wrongSource: bool, auxiliary: bool,
                             attribute: bool, endpoint: Address, delay: nat, stored: bool): (r: Recording)
    ensures r.ok ==> |r.state.core.journal| == |s.core.journal| + 1
  {
    var later := Later(s, delay);
    TryRecord(later, Observation(d, payload, wrongSource, auxiliary, Stamp(later)), attribute, endpoint, stored)
  }

  /** Records an observation that is within the budget, and counts it for the current generation
      unless it is foreign or not to be attributed. */
  function RecordNow(s: State, o: Observation, attribute: bool, endpoint: Address): (s': State)
    ensures |s'.core.journal| == |s.core.journal| + 1
  {
    var policy := CaptureAction(s.cfg.scenario, o.direction, DirectionOrdinal(s.core.counters, o), s.cfg.perturbation);
    var s1 := s.(core := Record(s.core, o, policy));
    Attribute(s1, o.direction, o.payload, Reconnecting(s) && !o.wrongSource && attribute, endpoint, |s.core.journal|)
  }

  function Attribute(s: State, d: Direction, payload: string, counted: bool, endpoint: Address, ordinal: nat): State {
    if !counted then s.(owners := s.owners + [None])
    else
      var s1 := s.(owners := s.owners + [Some(Attribution(s.link.current, endpoint))]);
      if s.link.current == 0 then s1.(genA := ObserveGeneration(s.genA, d, payload, ordinal))
      else s1.(genB := ObserveGeneration(s.genB, d, payload, ordinal))
  }

  /** Processes the accepted datagram recorded at `n`; `failure` is the exit code of a failed send. */
  function Deliver(s: State, d: Direction, p: Packet, sent1: bool, sent2: bool, failure: nat): State
    requires p.index < |s.core.journal|
  {
    var done := Process(s.core, d, p, s.core.journal[p.index].action, sent1, sent2);
    var s1 := s.(core := done.core);
    if done.ok then s1 else Fail(s1, failure)
  }

  function Relay(s: State, d: Direction, destination: Address, payload: string, attribute: bool, endpoint: Address,
                 delay: nat, stored: bool, sent1: bool, sent2: bool, failure: nat): State
  {
    var r := RecordObservation(s, d, payload, false, false, attribute, endpoint, delay, stored);
    if r.ok then Deliver(r.state, d, Packet(destination, payload, |s.core.journal|), sent1, sent2, failure)
    else r.state
  }

  // ---- one turn of the loop ----

  datatype Wait = NotSignaled | Signaled | WaitFailed
  datatype Received = Nothing | Datagram(source: Address, payload: string) | ReceiveFailed
  datatype Route = ToRetiredA | ToB | Rejected

  datatype Tick = Tick(
    deadline: bool,
    stopBefore: Wait,
    signal: Wait, emitterReady: bool, prepareOk: bool, confirmOk: bool, ackOk: bool,
    fromClient: Received, bLearned: bool, bObserveOk: bool,
    clientDelay: nat, clientStored: bool, clientSent1: bool, clientSent2: bool,
    stopBetween: Wait,
    fromServer: Received, route: Route,
    serverDelay: nat, serverStored: bool, serverSent1: bool, serverSent2: bool,
    quietElapsed: bool, relearnOk: bool, relearnAckOk: bool)

  function CheckStop(s: State, w: Wait): State {
    match w
    case NotSignaled => s
    case Signaled => s.(status := s.status.(stopRequested := true), phase := Left)
    case WaitFailed => Fail(s, 17)
  }

  function PrepareRetirement(s: State, t: Tick): State {
    if !t.emitterReady then Fail(s, 24)
    else if !t.prepareOk then Fail(s, 20)
    else
      s.(link := s.link.(retired := s.link.client, tailEmitter := true, prepared := true),
         phase := if t.ackOk then s.phase else Terminal(21))
  }

  function ConfirmShutdown(s: State, t: Tick): State {
    if s.link.retired.None? || !s.link.tailEmitter || !t.confirmOk then Fail(s, 20)
    else s.(link := s.link.(requested := true))
  }

  /** The first transition signal prepares the retirement of A, the second confirms its shutdown. */
  function OnSignal(s: State, t: Tick): State {
    if !Reconnecting(s) then s
    else match t.signal
      case NotSignaled => s
      case WaitFailed => Fail(s, 20)
      case Signaled =>
        if s.link.client.None? || s.link.current != 0 || !GenerationComplete(s.genA)
           || s.core.heldClient.Some? || s.core.heldServer.Some? then Fail(s, 19)
        else if !s.link.prepared then PrepareRetirement(s, t)
        else if !s.link.requested then ConfirmShutdown(s, t)
        else Fail(s, 20)
  }

  predicate InitialEndpointValid(s: State, source: Address, payload: string) {
    && s.link.client.None? && source.host == LOOPBACK_HOST
    && !IsAuxiliaryQuery(payload)
    && (Reconnecting(s) ==> !s.link.completed && s.link.current == 0 && IsConnectionless(payload))
  }

  predicate EndpointBValid(s: State, source: Address, payload: string, bLearned: bool) {
    && Reconnecting(s) && s.link.completed && s.link.client.None? && !bLearned
    && source.host == LOOPBACK_HOST
    && s.link.retired.Some? && source != s.link.retired.value
    && !IsAuxiliaryQuery(payload) && IsConnectionless(payload)
  }

  predicate ForeignSource(s: State, source: Address, payload: string, bLearned: bool) {
    || source.host != LOOPBACK_HOST
    || (s.link.client.Some? && source != s.link.client.value)
    || (s.link.client.None? && !InitialEndpointValid(s, source, payload) && !EndpointBValid(s, source, payload, bLearned))
  }

  /** `next` says whether the turn goes on to the server side. */
  datatype ClientTurn = ClientTurn(state: State, next: bool)

  function OnForeignClient(s: State, source: Address, payload: string, t: Tick): ClientTurn {
    var auxiliary := IsAuxiliaryObservation(payload, s.cfg.functional, source.host == LOOPBACK_HOST,
                                            s.link.client.Some?, s.link.client == Some(source), s.status.auxiliaryCount);
    var r := RecordObservation(s, ClientToServer, payload, true, auxiliary, true, source, t.clientDelay, t.clientStored);
    if !r.ok then ClientTurn(r.state, false)
    else if auxiliary then ClientTurn(r.state.(status := r.state.status.(auxiliaryCount := r.state.status.auxiliaryCount + 1)), false)
    else ClientTurn(r.state.(status := r.state.status.(wrongSource := true), phase := Left), false)
  }

  function LearnClient(s: State, source: Address, payload: string, t: Tick): State {
    if EndpointBValid(s, source, payload, t.bLearned) then
      if t.bObserveOk then s.(link := s.link.(client := Some(source), current := 1, distinct := true)) else Fail(s, 23)
    else if s.link.client.None? then s.(link := s.link.(client := Some(source)))
    else if Reconnecting(s) && s.link.completed && s.link.current == 1 && !t.bObserveOk then Fail(s, 23)
    else s
  }

  function OnOwnClient(s: State, source: Address, payload: string, t: Tick): ClientTurn {
    var s1 := LearnClient(s, source, payload, t);
    if s1.phase != Looping then ClientTurn(s1, false)
    else
      var s2 := Relay(s1, ClientToServer, s.cfg.server, payload, true, source,
                      t.clientDelay, t.clientStored, t.clientSent1, t.clientSent2, 8);
      ClientTurn(s2, s2.phase == Looping)
  }

  function OnClient(s: State, t: Tick): ClientTurn {
    match t.fromClient
    case Nothing => ClientTurn(s, true)
    case ReceiveFailed => ClientTurn(Fail(s, 6), false)
    case Datagram(source, payload) =>
      if ForeignSource(s, source, payload, t.bLearned) then OnForeignClient(s, source, payload, t)
      else OnOwnClient(s, source, payload, t)
  }

  function OnForeignServer(s: State, payload: string, t: Tick, source: Address): State {
    var r := RecordObservation(s, ServerToClient, payload, true, false, true, source, t.serverDelay, t.serverStored);
    if r.ok then r.state.(status := r.state.status.(wrongSource := true), phase := Left) else r.state
  }

  /** Once the retirement of A is prepared, a server datagram goes to B only over a proven B route;
      everything else goes to the retired A endpoint through the tail emitter. */
  function OnPreparedServer(s: State, payload: string, t: Tick): State
  {
    if s.link.requested && t.route == Rejected then Fail(s, 23)
    else
      var routeB := s.link.requested && s.link.completed && t.route == ToB;
      var destination := if routeB then s.link.client else s.link.retired;
      if destination.None? || (!routeB && !s.link.tailEmitter) then Fail(s, 23)
      else Relay(s, ServerToClient, destination.value, payload, !s.link.requested || routeB, destination.value,
                 t.serverDelay, t.serverStored, t.serverSent1, t.serverSent2, 10)
  }

  function OnServer(s: State, t: Tick): State
  {
    match t.fromServer
    case Nothing => s
    case ReceiveFailed => Fail(s, 9)
    case Datagram(source, payload) =>
      if source != s.cfg.server then OnForeignServer(s, payload, t, source)
      else if s.link.prepared then OnPreparedServer(s, payload, t)
      else if s.link.client.None? then OnForeignServer(s, payload, t, source)
      else Relay(s, ServerToClient, s.link.client.value, payload, true, s.link.client.value,
                 t.serverDelay, t.serverStored, t.serverSent1, t.serverSent2, 10)
  }

  function Relearn(s: State, t: Tick): State {
    s.(link := if t.relearnOk then s.link.(client := None, quiet := true, completed := true)
               else s.link.(client := None),
       phase := if !t.relearnOk then Terminal(20) else if !t.relearnAckOk then Terminal(21) else s.phase)
  }

  function OnQuiet(s: State, t: Tick): State {
    if !(s.link.requested && !s.link.completed && t.quietElapsed) then s
    else if s.link.client.None? || s.core.heldClient.Some? || s.core.heldServer.Some?
            || !GenerationComplete(s.genA) then Fail(s, 20)
    else Relearn(s, t)
  }

  /** The turn up to and including the client side. */
  function ClientHalf(s: State, t: Tick): ClientTurn
  {
    if t.deadline then ClientTurn(s.(phase := Left), false)
    else
      var s1 := CheckStop(s, t.stopBefore);
      if s1.phase != Looping then ClientTurn(s1, false)
      else
        var s2 := OnSignal(s1, t);
        if s2.phase != Looping then ClientTurn(s2, false)
        else OnClient(s2, t)
  }

  /** The rest of the turn: the second stop poll, the server side and the quiet check. */
  function ServerHalf(s: State, t: Tick): State {
    if s.status.limitReached.Some? then s.(phase := Left) else ServerSide(CheckStop(s, t.stopBetween), t)
  }

  function ServerSide(s: State, t: Tick): State {
    if s.phase != Looping then s
    else
      var s1 := OnServer(s, t);
      if s1.phase != Looping then s1 else EndOfTurn(s1, t)
  }

  function EndOfTurn(s: State, t: Tick): State {
    if s.status.wrongSource then s.(phase := Left) else OnQuiet(s, t)
  }

  function Iterate(s: State, t: Tick): State
    requires s.phase == Looping
  {
    var half := ClientHalf(s, t);
    if half.next then ServerHalf(half.state, t) else half.state
  }

  // ---- after the loop ----

  function FlushClientSlot(s: State, sent: bool): State {
    if s.core.heldClient.None? then s
    else
      var r := FlushSlot(s.core, ClientToServer, s.core.heldClient.value.destination, sent);
      var s1 := s.(core := r.core);
      if r.ok then s1 else Fail(s1, 11)
  }

  function FlushServerSlot(s: State, sent: bool): State {
    if s.core.heldServer.None? || s.link.client.None? then s
    else
      var r := FlushSlot(s.core, ServerToClient, s.link.client.value, sent);
      var s1 := s.(core := r.core);
      if r.ok then s1 else Fail(s1, 11)
  }

  function Flush(s: State, clientSent: bool, serverSent: bool): State
    requires s.phase == Left
  {
    if s.status.storeFailed then Fail(s, 15)
    else
      var s1 := FlushClientSlot(s, clientSent);
      if s1.phase == Left then FlushServerSlot(s1, serverSent) else s1
  }

  predicate UnresolvedReorder(c: Core) {
    || (c.heldClient.Some? && c.heldClient.value.reorder)
    || (c.heldServer.Some? && c.heldServer.value.reorder)
  }

  /** The final answers of the reconnect transition object. */
  datatype Transition = Transition(prepared: bool, shutdown: bool, bLearned: bool, bConnect: bool, bAccept: bool)

  predicate ReconnectComplete(s: State, t: Transition) {
    Reconnecting(s) ==>
      && s.link.prepared && s.link.completed && s.link.quiet
      && t.prepared && t.shutdown
      && s.link.distinct && s.link.current == 1
      && t.bLearned && t.bConnect && t.bAccept
      && GenerationComplete(s.genA) && GenerationComplete(s.genB)
      && s.genA.last.Some? && s.genB.first.Some?
      && s.genA.last.value < s.genB.first.value
  }

  predicate Complete(s: State, t: Transition) {
    var permitted := if s.cfg.functional then s.status.auxiliaryCount else 0;
    && s.status.limitReached.None? && !s.status.wrongSource
    && (s.cfg.functional ==> s.status.stopRequested)
    && s.link.client.Some?
    && s.core.counters.clientPackets != 0 && s.core.counters.serverPackets != 0
    && s.core.counters.ignoredWrongSource == permitted
    && s.core.counters.auxiliary == permitted
    && CountersConsistent(s.core)
    && s.core.perturbations == ExpectedPerturbations(s.cfg.scenario)
    && ReconnectComplete(s, t)
    && (s.cfg.scenario == ReorderServerRuntime ==> s.core.reorderCompleted && !UnresolvedReorder(s.core))
  }
}
