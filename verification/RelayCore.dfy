/** The journal, counters, hold slots and wire of the relay, as values: what recording an
    observation and processing one datagram do. */
module RelayCore {
  import opened Common
  import opened RelayTypes

  datatype CoreState = Core(
    journal: seq<Entry>,
    counters: Counters,
    heldClient: Option<HeldDatagram>,
    heldServer: Option<HeldDatagram>,
    perturbations: nat,
    reorderCompleted: bool,
    wire: seq<Emission>)

  predicate InRange(h: Option<HeldDatagram>, n: nat) {
    h.Some? ==> h.value.index < n
  }

  /** A hold slot always refers to an existing journal entry. */
  type Core = c: CoreState | InRange(c.heldClient, |c.journal|) && InRange(c.heldServer, |c.journal|)
    witness Core([], ZERO_COUNTERS, None, None, 0, false, [])

  const EMPTY_CORE: Core := Core([], ZERO_COUNTERS, None, None, 0, false, [])

  function Other(d: Direction): Direction {
    if d == ClientToServer then ServerToClient else ClientToServer
  }

  function Slot(c: Core, d: Direction): (h: Option<HeldDatagram>)
    ensures InRange(h, |c.journal|)
  {
    if d == ClientToServer then c.heldClient else c.heldServer
  }

  function WithSlot(c: Core, d: Direction, h: Option<HeldDatagram>): Core
    requires InRange(h, |c.journal|)
  {
    if d == ClientToServer then c.(heldClient := h) else c.(heldServer := h)
  }

  // ---- recording an observation ----

  function NewEntry(ordinal: nat, d: Direction, directionOrdinal: nat, timestamp: nat,
                    payload: string, action: Action, wrongSource: bool): Entry
  {
    Entry(ordinal, d, directionOrdinal, timestamp, payload,
          if wrongSource then UnexpectedSource
          else if d == ClientToServer then ResearchClient else ResearchServer,
          if d == ClientToServer then ResearchServer else ResearchClient,
          action, NotHeld, [], false, wrongSource)
  }

  /** What the relay knows about a datagram it is about to record. `policy` is the action of an
      accepted datagram; a wrong source is dropped, or only observed when it is auxiliary. */
  datatype Observation = Observation(
    direction: Direction, payload: string, wrongSource: bool, auxiliary: bool, timestamp: nat)

  function ObservedAction(o: Observation, policy: Action): Action {
    if o.auxiliary then AuxiliaryObservation else if o.wrongSource then Drop else policy
  }

  function NextCounters(c: Counters, o: Observation): Counters {
    var n := CountObserved(c, o.direction, |o.payload|);
    if !o.wrongSource then n
    else
      var w := n.(ignoredWrongSource := n.ignoredWrongSource + 1);
      if o.auxiliary then w.(auxiliary := w.auxiliary + 1) else w.(dropped := w.dropped + 1)
  }

  function DirectionOrdinal(c: Counters, o: Observation): nat {
    var n := NextCounters(c, o);
    if o.direction == ClientToServer then n.clientPackets else n.serverPackets
  }

  function Record(c: Core, o: Observation, policy: Action): Core {
    c.(journal := c.journal
                  + [NewEntry(|c.journal|, o.direction, DirectionOrdinal(c.counters, o), o.timestamp,
                              o.payload, ObservedAction(o, policy), o.wrongSource)],
       counters := NextCounters(c.counters, o),
       perturbations := if o.wrongSource && !o.auxiliary then c.perturbations + 1 else c.perturbations)
  }

  // ---- emission ----

  /** The attempt succeeds when the counters do not overflow and the socket takes the datagram;
      otherwise nothing changes (the pushed ordinal is popped again). */
  predicate EmitSucceeds(c: Core, p: Packet, sent: bool) {
    !EmissionOverflows(c.counters, |p.payload|) && sent
  }

  /** A datagram about to be sent for journal entry `index`. */
  datatype Packet = Packet(destination: Address, payload: string, index: nat)

  function Emit(c: Core, d: Direction, p: Packet): Core
    requires p.index < |c.journal|
  {
    var e := c.journal[p.index];
    c.(journal := c.journal[p.index := e.(emitted := e.emitted + [c.counters.emitted], delivered := true)],
       counters := CountEmission(c.counters, |p.payload|),
       wire := c.wire + [Emission(d, p.destination, p.payload, p.index)])
  }

  function SetHold(c: Core, index: nat, h: HoldState): Core
    requires index < |c.journal|
  {
    c.(journal := c.journal[index := c.journal[index].(holdState := h)])
  }

  datatype Outcome = Outcome(core: Core, ok: bool)

  function TryEmit(c: Core, d: Direction, p: Packet, sent: bool): Outcome
    requires p.index < |c.journal|
  {
    if EmitSucceeds(c, p, sent) then Outcome(Emit(c, d, p), true) else Outcome(c, false)
  }

  function TryEmitTwo(c: Core, d: Direction, a: Packet, b: Packet, sent1: bool, sent2: bool): Outcome
    requires a.index < |c.journal| && b.index < |c.journal|
  {
    var first := TryEmit(c, d, a, sent1);
    if first.ok then TryEmit(first.core, d, b, sent2) else first
  }

  // ---- processing an accepted datagram ----

  /** A forwarded datagram releases the held one: a reorder sends the new datagram first, a delay
      preserves order. */
  function ReleaseHeld(c: Core, d: Direction, current: Packet, sent1: bool, sent2: bool): Outcome
    requires current.index < |c.journal| && Slot(c, d).Some?
  {
    var h := Slot(c, d).value;
    var earlier := Packet(h.destination, h.payload, h.index);
    var r := if h.reorder then TryEmitTwo(c, d, current, earlier, sent1, sent2)
             else TryEmitTwo(c, d, earlier, current, sent1, sent2);
    if !r.ok then r
    else
      var released := SetHold(r.core, h.index, Released);
      Outcome(WithSlot(released.(reorderCompleted := released.reorderCompleted || h.reorder), d, None), true)
  }

  function HoldBack(c: Core, d: Direction, current: Packet, reorder: bool): Core
    requires current.index < |c.journal|
  {
    var kept := SetHold(c, current.index, Held);
    WithSlot(kept.(counters := kept.counters.(delayed := kept.counters.delayed + 1),
                   perturbations := kept.perturbations + 1),
             d, Some(HeldDatagram(current.payload, current.destination, current.index, reorder)))
  }

  function CountDrop(c: Core): Core {
    c.(counters := c.counters.(dropped := c.counters.dropped + 1), perturbations := c.perturbations + 1)
  }

  function CountDuplicate(c: Core): Core {
    c.(counters := c.counters.(duplicated := c.counters.duplicated + 1), perturbations := c.perturbations + 1)
  }

  function Process(c: Core, d: Direction, current: Packet, action: Action, sent1: bool, sent2: bool): Outcome
    requires current.index < |c.journal|
  {
    if Slot(c, d).Some? && action == Forward then ReleaseHeld(c, d, current, sent1, sent2)
    else
      match action
      case Forward => TryEmit(c, d, current, sent1)
      case Drop => Outcome(CountDrop(c), true)
      case Duplicate =>
        var r := TryEmitTwo(c, d, current, current, sent1, sent2);
        if r.ok then Outcome(CountDuplicate(r.core), true) else r
      case HoldForDelay | HoldForReorder =>
        if Slot(c, d).Some? then Outcome(c, false)
        else Outcome(HoldBack(c, d, current, action == HoldForReorder), true)
      case AuxiliaryObservation => Outcome(c, true)
  }

  // ---- deadline flush ----

  /** Releases a lone held datagram to `destination`: a delay counts as released, a reorder that
      never saw a successor stays unresolved. The hold state changes before the send. */
  function FlushSlot(c: Core, d: Direction, destination: Address, sent: bool): Outcome
    requires Slot(c, d).Some?
  {
    var h := Slot(c, d).value;
    var marked := SetHold(c, h.index, if h.reorder then Unresolved else Released);
    TryEmit(marked, d, Packet(destination, h.payload, h.index), sent)
  }

  /** The self-check the relay runs before its verdict. */
  predicate CountersConsistent(c: Core) {
    && c.counters.dropped <= c.counters.observed
    && c.counters.emitted == c.counters.observed - c.counters.dropped - c.counters.auxiliary + c.counters.duplicated
    && c.perturbations == c.counters.dropped + c.counters.duplicated + c.counters.delayed
  }

  // ---- one step of the core: any observation, any action, any send results ----

  datatype Step =
    | Reject(seen: Observation)
    | Accept(o: Observation, policy: Action, destination: Address, sent1: bool, sent2: bool)

  /** The calls the relay makes: a rejected datagram has a wrong source; an accepted one does not,
      is not auxiliary, and is never given the auxiliary action. */
  predicate ProperStep(s: Step) {
    match s
    case Reject(o) => o.wrongSource
    case Accept(o, policy, _, _, _) => !o.wrongSource && !o.auxiliary && policy != AuxiliaryObservation
  }

  function Take(c: Core, s: Step): Outcome
    requires ProperStep(s)
  {
    match s
    case Reject(o) => Outcome(Record(c, o, Drop), true)
    case Accept(o, policy, destination, sent1, sent2) =>
      Process(Record(c, o, policy), o.direction, Packet(destination, o.payload, |c.journal|), policy, sent1, sent2)
  }
}
