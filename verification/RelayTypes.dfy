/** Values of the byte-preserving UDP relay: datagrams, journal entries, counters. */
module RelayTypes {
  import opened Common

  datatype Direction = ClientToServer | ServerToClient
  datatype Action = Forward | Drop | Duplicate | HoldForDelay | HoldForReorder | AuxiliaryObservation
  datatype HoldState = NotHeld | Held | Released | Unresolved
  datatype Role = ResearchClient | ResearchServer | UnexpectedSource

  /** The scenarios that perturb traffic or reconnect; every other one behaves like `Undisturbed`. */
  datatype Scenario =
    | Undisturbed
    | Reconnect
    | DropServerRuntime
    | DropTwoServerRuntime
    | DuplicateServerRuntime
    | ReorderServerRuntime
    | DropClientMove
    | DelayClientMove

  datatype Address = Address(host: nat, port: nat)

  const LOOPBACK_HOST: nat := 0x7f00_0001

  datatype Perturbation = Perturbation(clientOrdinal: nat, serverOrdinal: nat)

  datatype Limits = Limits(
    maxDatagrams: nat,
    maxRawBytes: nat,
    maxPayload: nat,
    maxClientPackets: nat,
    maxServerPackets: nat,
    maxTimestamp: nat)

  const CAP_DATAGRAMS: nat := 65536
  const CAP_RAW_BYTES: nat := 512 * 1024 * 1024
  const CAP_PAYLOAD: nat := 65507
  const SIZE_MAX: nat := 0xffff_ffff_ffff_ffff

  /** The part of the option validation that concerns the fields kept here. */
  predicate ValidLimits(l: Limits) {
    && 0 < l.maxDatagrams <= CAP_DATAGRAMS
    && 0 < l.maxPayload <= CAP_PAYLOAD
    && 0 < l.maxRawBytes <= CAP_RAW_BYTES
    && l.maxPayload <= l.maxRawBytes
    && 0 < l.maxClientPackets <= l.maxDatagrams
    && 0 < l.maxServerPackets <= l.maxDatagrams
    && 0 < l.maxTimestamp <= 300_000_000
  }

  datatype Counters = Counters(
    observed: nat, rawBytes: nat, clientPackets: nat, serverPackets: nat,
    emitted: nat, emittedBytes: nat,
    dropped: nat, duplicated: nat, delayed: nat,
    ignoredWrongSource: nat, auxiliary: nat)

  const ZERO_COUNTERS := Counters(0, 0, 0, 0, 0, 0, 0, 0, 0, 0, 0)

  datatype BudgetError =
    | PayloadLimit | DatagramLimit | TotalRawByteLimit | ClientPacketLimit | ServerPacketLimit

  /** One journal record. `payload` is the raw datagram stored beside the journal. */
  datatype Entry = Entry(
    observedOrdinal: nat,
    direction: Direction,
    directionOrdinal: nat,
    timestamp: nat,
    payload: string,
    sourceRole: Role,
    destinationRole: Role,
    action: Action,
    holdState: HoldState,
    emitted: seq<nat>,
    delivered: bool,
    wrongSource: bool)

  datatype HeldDatagram = HeldDatagram(payload: string, destination: Address, index: nat, reorder: bool)

  /** One datagram handed to a socket; emission ordinals are positions in this log. */
  datatype Emission = Emission(direction: Direction, destination: Address, payload: string, index: nat)

  // ---- payload recognisers ----

  const HEADER := "\U{ff}\U{ff}\U{ff}\U{ff}"
  const AUXILIARY_QUERY := HEADER + "TSource Engine Query" + "\0"
  const MAX_AUXILIARY_QUERIES: nat := 8

  predicate IsConnectionless(payload: string) {
    StartsWith(payload, HEADER)
  }

  predicate IsConnect(payload: string) {
    |payload| <= 1400 && StartsWith(payload, HEADER + "connect 48 ")
  }

  predicate IsAccept(payload: string) {
    |payload| <= 1024 && StartsWith(payload, HEADER + "B ")
  }

  predicate IsAuxiliaryQuery(payload: string) {
    payload == AUXILIARY_QUERY
  }

  predicate IsAuxiliaryObservation(payload: string, functional: bool, loopback: bool,
                                   owningLearned: bool, sourceIsOwning: bool, soFar: nat)
  {
    && functional && loopback && owningLearned && !sourceIsOwning
    && soFar < MAX_AUXILIARY_QUERIES
    && IsAuxiliaryQuery(payload)
  }

  // ---- the action chosen for an accepted datagram ----

  function CaptureAction(scenario: Scenario, direction: Direction, ordinal: nat, p: Perturbation): Action {
    match direction
    case ServerToClient =>
      if scenario == DropServerRuntime && ordinal == p.serverOrdinal then Drop
      else if scenario == DropTwoServerRuntime
           && (ordinal == p.serverOrdinal || ordinal == p.serverOrdinal + 1) then Drop
      else if scenario == DuplicateServerRuntime && ordinal == p.serverOrdinal then Duplicate
      else if scenario == ReorderServerRuntime && ordinal == p.serverOrdinal then HoldForReorder
      else Forward
    case ClientToServer =>
      if scenario == DropClientMove && ordinal == p.clientOrdinal then Drop
      else if scenario == DelayClientMove && ordinal == p.clientOrdinal then HoldForDelay
      else Forward
  }

  function ExpectedPerturbations(scenario: Scenario): nat {
    match scenario
    case DropTwoServerRuntime => 2
    case DropServerRuntime | DuplicateServerRuntime | ReorderServerRuntime
       | DropClientMove | DelayClientMove => 1
    case _ => 0
  }

  // ---- counters ----

  function BudgetViolation(c: Counters, l: Limits, d: Direction, size: nat): Option<BudgetError> {
    if size > l.maxPayload then Some(PayloadLimit)
    else if c.observed >= l.maxDatagrams then Some(DatagramLimit)
    else if c.rawBytes > l.maxRawBytes || size > l.maxRawBytes - c.rawBytes then Some(TotalRawByteLimit)
    else if d == ClientToServer && c.clientPackets >= l.maxClientPackets then Some(ClientPacketLimit)
    else if d == ServerToClient && c.serverPackets >= l.maxServerPackets then Some(ServerPacketLimit)
    else None
  }

  function CountObserved(c: Counters, d: Direction, size: nat): Counters {
    var c' := c.(observed := c.observed + 1, rawBytes := c.rawBytes + size);
    if d == ClientToServer then c'.(clientPackets := c.clientPackets + 1)
    else c'.(serverPackets := c.serverPackets + 1)
  }

  predicate EmissionOverflows(c: Counters, size: nat) {
    c.emitted == SIZE_MAX || size > SIZE_MAX - c.emittedBytes
  }

  function CountEmission(c: Counters, size: nat): Counters {
    c.(emitted := c.emitted + 1, emittedBytes := c.emittedBytes + size)
  }
}
