/** What one turn of the relay does with a datagram that arrives: where it is sent and how often, whom
    it is counted for, and when it is not relayed at all. */
module RelayTurns {
  import opened Common
  import opened RelayTypes
  import opened RelayCore
  import opened RelayLedger
  import opened RelaySettled
  import opened RelayRuns
  import opened RelayMachine
  import opened RelayBudget
  import opened RelayFinal
  import opened RelayInvariant
  import opened RelaySafety

  // ---- what leaves ----

  /** The datagram that waits in a direction. */
  function Waiting(c: Core, d: Direction): seq<Emission> {
    if Slot(c, d).None? then []
    else
      var h := Slot(c, d).value;
      [Emission(d, h.destination, h.payload, h.index)]
  }

  /** The scenario keeps this datagram back. */
  predicate KeptBack(cfg: Config, d: Direction, ordinal: nat) {
    || (cfg.scenario == ReorderServerRuntime && d == ServerToClient && ordinal == cfg.perturbation.serverOrdinal)
    || (cfg.scenario == DelayClientMove && d == ClientToServer && ordinal == cfg.perturbation.clientOrdinal)
  }

  /** What is sent when the datagram `self` is the one with this ordinal in its direction. */
  function Leaving(cfg: Config, d: Direction, ordinal: nat, self: Emission, waiting: seq<Emission>): seq<Emission> {
    var client := d == ClientToServer && ordinal == cfg.perturbation.clientOrdinal;
    var server := d == ServerToClient && ordinal == cfg.perturbation.serverOrdinal;
    match cfg.scenario
    case Undisturbed => [self]
    case Reconnect => [self]
    case DropServerRuntime => if server then [] else [self]
    case DropTwoServerRuntime =>
      if server || (d == ServerToClient && ordinal == cfg.perturbation.serverOrdinal + 1) then [] else [self]
    case DuplicateServerRuntime => if server then [self, self] else [self]
    case ReorderServerRuntime => if server then [] else [self] + waiting
    case DropClientMove => if client then [] else [self]
    case DelayClientMove => if client then [] else waiting + [self]
  }

  // ---- what the core sends ----

  /** The emissions that an action calls for. */
  function Called(c: Core, d: Direction, p: Packet, action: Action): seq<Emission> {
    var self := Emission(d, p.destination, p.payload, p.index);
    match action
    case Forward =>
      if Slot(c, d).None? then [self] else if Slot(c, d).value.reorder then [self] + Waiting(c, d) else Waiting(c, d) + [self]
    case Duplicate => [self, self]
    case _ => []
  }

  /** The wire grows by some of the first emissions called for, by all of them if the step succeeded. */
  ghost predicate Sends(before: seq<Emission>, after: seq<Emission>, called: seq<Emission>, ok: bool) {
    && |before| <= |after| <= |before| + |called|
    && after == before + called[..|after| - |before|]
    && (ok <==> |after| == |before| + |called|)
  }

  /** Neither counter of emissions overflows within this step. */
  predicate NoOverflow(c: Core, d: Direction, size: nat) {
    && c.counters.emitted + 2 <= SIZE_MAX
    && c.counters.emittedBytes + 2 * size + (if Slot(c, d).Some? then |Slot(c, d).value.payload| else 0) <= SIZE_MAX
  }

  lemma PairSends(c: Core, d: Direction, a: Packet, b: Packet, sent1: bool, sent2: bool)
    requires a.index < |c.journal| && b.index < |c.journal|
    ensures var r := TryEmitTwo(c, d, a, b, sent1, sent2);
            Sends(c.wire, r.core.wire, [Emission(d, a.destination, a.payload, a.index),
                                        Emission(d, b.destination, b.payload, b.index)], r.ok)
    ensures sent1 && sent2 && c.counters.emitted + 2 <= SIZE_MAX && c.counters.emittedBytes + |a.payload| + |b.payload| <= SIZE_MAX
            ==> TryEmitTwo(c, d, a, b, sent1, sent2).ok
  {
  }

  lemma ReleaseSends(c: Core, d: Direction, p: Packet, sent1: bool, sent2: bool)
    requires p.index < |c.journal| && Slot(c, d).Some?
    ensures var r := ReleaseHeld(c, d, p, sent1, sent2);
            && Sends(c.wire, r.core.wire, Called(c, d, p, Forward), r.ok)
            && (sent1 && sent2 && NoOverflow(c, d, |p.payload|) ==> r.ok)
            && (r.ok ==> Slot(r.core, d).None?)
  {
    var h := Slot(c, d).value;
    var earlier := Packet(h.destination, h.payload, h.index);
    hide TryEmitTwo, Sends;
    if h.reorder {
      PairSends(c, d, p, earlier, sent1, sent2);
    } else {
      PairSends(c, d, earlier, p, sent1, sent2);
    }
  }

  lemma ProcessSends(c: Core, d: Direction, p: Packet, action: Action, sent1: bool, sent2: bool)
    requires p.index < |c.journal| && (IsHold(action) ==> Slot(c, d).None?)
    ensures var r := Process(c, d, p, action, sent1, sent2);
            && Sends(c.wire, r.core.wire, Called(c, d, p, action), r.ok)
            && (sent1 && sent2 && NoOverflow(c, d, |p.payload|) ==> r.ok)
            && (r.ok ==> Waiting(r.core, d) == if IsHold(action) then [Emission(d, p.destination, p.payload, p.index)]
                                               else if action == Forward then [] else Waiting(c, d))
  {
    if Slot(c, d).Some? && action == Forward {
      ReleaseSends(c, d, p, sent1, sent2);
    } else if action == Duplicate {
      PairSends(c, d, p, p, sent1, sent2);
    }
  }

  // ---- a datagram that is relayed ----

  /** The journal after recording and processing a datagram: nothing older changed its face. */
  ghost predicate OneMore(j: seq<Entry>, k: seq<Entry>, d: Direction, payload: string, time: nat) {
    && |k| == |j| + 1 && SameFaces(k[..|j|], j)
    && k[|j|].payload == payload && k[|j|].timestamp == time && k[|j|].direction == d && !k[|j|].wrongSource
    && k[|j|].directionOrdinal == CountDirection(j, d) + 1
  }

  /** What has become of a datagram that was to be relayed: it was recorded, unless over budget or not
      stored; counted for `owner`; and sent as the scenario asks, as far as the sends succeeded. */
  ghost predicate Relayed(m: State, n: State, d: Direction, destination: Address, payload: string,
                          owner: Option<Attribution>, recorded: bool, smooth: bool, failure: nat)
  {
    if !recorded then n.core == m.core && n.owners == m.owners && n.phase == Left
    else
      var ordinal := CountDirection(m.core.journal, d) + 1;
      var self := Emission(d, destination, payload, |m.core.journal|);
      && OneMore(m.core.journal, n.core.journal, d, payload, CappedStamp(m.cfg, n.status.elapsed))
      && n.owners == m.owners + [owner] && n.status == m.status.(elapsed := n.status.elapsed)
      && Sends(m.core.wire, n.core.wire, Leaving(m.cfg, d, ordinal, self, Waiting(m.core, d)), n.phase != Terminal(failure))
      && (smooth ==> n.phase != Terminal(failure))
      && (n.phase != Terminal(failure) ==> Waiting(n.core, d) == if KeptBack(m.cfg, d, ordinal) then [self] else [])
  }

  /** The waiting datagram, if any, is the one that the scenario keeps back. */
  predicate WaitsAsAsked(cfg: Config, c: Core, d: Direction) {
    Slot(c, d).Some? ==> if d == ServerToClient then cfg.scenario == ReorderServerRuntime && Slot(c, d).value.reorder
                         else cfg.scenario == DelayClientMove && !Slot(c, d).value.reorder
  }

  /** A waiting datagram was kept back by the scenario. */
  lemma WaitingWasKept(s: State, d: Direction)
    requires Ledger(s.core) && WithinBudget(s)
    ensures WaitsAsAsked(s.cfg, s.core, d)
  {
    assert SlotMatches(s.core, d);
    if Slot(s.core, d).Some? {
      assert EntryWithin(s.cfg, s.status.elapsed, s.core.journal[Slot(s.core, d).value.index]);
    }
  }

  lemma CalledAsAsked(cfg: Config, c: Core, d: Direction, p: Packet, ordinal: nat)
    requires WaitsAsAsked(cfg, c, d)
    ensures var action := CaptureAction(cfg.scenario, d, ordinal, cfg.perturbation);
            && Called(c, d, p, action) == Leaving(cfg, d, ordinal, Emission(d, p.destination, p.payload, p.index), Waiting(c, d))
            && (IsHold(action) <==> KeptBack(cfg, d, ordinal))
            && (!IsHold(action) && action != Forward ==> Waiting(c, d) == [])
  {
  }

  // ---- relaying ----

  lemma RecordedOrdinal(c: Core, o: Observation, policy: Action)
    requires Shape(c) && !o.wrongSource && !o.auxiliary
    ensures var r, n := Record(c, o, policy), |c.journal|;
            && DirectionOrdinal(c.counters, o) == CountDirection(c.journal, o.direction) + 1
            && |r.journal| == n + 1 && r.journal[..n] == c.journal
            && r.journal[n].timestamp == o.timestamp && r.journal[n].payload == o.payload && r.journal[n].direction == o.direction && !r.journal[n].wrongSource
            && r.journal[n].directionOrdinal == CountDirection(c.journal, o.direction) + 1
            && r.journal[n].action == policy
  {
  }

  lemma RecordedRest(c: Core, o: Observation, policy: Action)
    ensures var r := Record(c, o, policy);
            && |r.journal| == |c.journal| + 1 && r.wire == c.wire
            && r.heldClient == c.heldClient && r.heldServer == c.heldServer
            && r.counters.emitted == c.counters.emitted && r.counters.emittedBytes == c.counters.emittedBytes
  {
  }

  lemma SameSlots(c: Core, r: Core, d: Direction, p: Packet, action: Action)
    requires r.heldClient == c.heldClient && r.heldServer == c.heldServer
    requires r.counters.emitted == c.counters.emitted && r.counters.emittedBytes == c.counters.emittedBytes
    ensures Called(r, d, p, action) == Called(c, d, p, action) && Waiting(r, d) == Waiting(c, d) && Slot(r, d) == Slot(c, d)
    ensures NoOverflow(r, d, |p.payload|) <==> NoOverflow(c, d, |p.payload|)
  {
  }

  lemma FacesOfPrefix(j: seq<Entry>, r: seq<Entry>, k: seq<Entry>)
    requires |r| == |j| + 1 && r[..|j|] == j && SameFaces(r, k)
    ensures |k| == |j| + 1 && SameFaces(k[..|j|], j) && Face(k[|j|]) == Face(r[|j|])
  {
    forall i | 0 <= i < |j| ensures Face(k[..|j|][i]) == Face(j[i]) {
      assert r[..|j|][i] == r[i] && Face(r[i]) == Face(k[i]);
    }
  }

  lemma ProcessedJournal(c: Core, o: Observation, policy: Action, p: Packet, sent1: bool, sent2: bool)
    requires Ledger(c) && !o.wrongSource && !o.auxiliary && policy != AuxiliaryObservation
    requires p.index == |c.journal| && p.payload == o.payload
    ensures var k := Process(Record(c, o, policy), o.direction, p, policy, sent1, sent2).core.journal;
            OneMore(c.journal, k, o.direction, o.payload, o.timestamp)
  {
    var r := Record(c, o, policy);
    RecordedOrdinal(c, o, policy);
    RecordKeepsLedger(c, o, policy);
    hide Record, Process, Ledger;
    ProcessKeepsLedger(r, o.direction, p, policy, sent1, sent2);
    var k := Process(r, o.direction, p, policy, sent1, sent2).core.journal;
    FacesOfPrefix(c.journal, r.journal, k);
    FaceFields(r.journal[|c.journal|], k[|c.journal|]);
  }

  lemma ProcessedEmissions(cfg: Config, c: Core, o: Observation, policy: Action, p: Packet, sent1: bool, sent2: bool)
    requires Shape(c) && WaitsAsAsked(cfg, c, o.direction) && !o.wrongSource && !o.auxiliary
    requires p.index == |c.journal| && p.payload == o.payload
    requires policy == CaptureAction(cfg.scenario, o.direction, CountDirection(c.journal, o.direction) + 1, cfg.perturbation)
    requires IsHold(policy) ==> Slot(c, o.direction).None?
    ensures var d := o.direction;
            var done, ordinal := Process(Record(c, o, policy), d, p, policy, sent1, sent2), CountDirection(c.journal, d) + 1;
            var self := Emission(d, p.destination, p.payload, p.index);
            && Sends(c.wire, done.core.wire, Leaving(cfg, d, ordinal, self, Waiting(c, d)), done.ok)
            && (sent1 && sent2 && NoOverflow(c, d, |p.payload|) ==> done.ok)
            && (done.ok ==> Waiting(done.core, d) == if KeptBack(cfg, d, ordinal) then [self] else [])
  {
    var r, d := Record(c, o, policy), o.direction;
    hide Record, Process, Shape, Sends, Leaving, CaptureAction, KeptBack, WaitsAsAsked, Called, Waiting, NoOverflow, CountDirection;
    RecordedRest(c, o, policy);
    SameSlots(c, r, d, p, policy);
    CalledAsAsked(cfg, c, d, p, CountDirection(c.journal, d) + 1);
    ProcessSends(r, d, p, policy, sent1, sent2);
  }

  /** The outcome of recording and processing the datagram `self`. */
  ghost predicate AsAsked(cfg: Config, c: Core, done: Outcome, self: Emission, time: nat, smooth: bool) {
    var d, ordinal := self.direction, CountDirection(c.journal, self.direction) + 1;
    && OneMore(c.journal, done.core.journal, d, self.payload, time)
    && Sends(c.wire, done.core.wire, Leaving(cfg, d, ordinal, self, Waiting(c, d)), done.ok)
    && (smooth ==> done.ok)
    && (done.ok ==> Waiting(done.core, d) == if KeptBack(cfg, d, ordinal) then [self] else [])
  }

  lemma ProcessedAsAsked(cfg: Config, c: Core, o: Observation, policy: Action, p: Packet, sent1: bool, sent2: bool)
    requires Ledger(c) && WaitsAsAsked(cfg, c, o.direction) && !o.wrongSource && !o.auxiliary && policy != AuxiliaryObservation
    requires p.index == |c.journal| && p.payload == o.payload
    requires policy == CaptureAction(cfg.scenario, o.direction, CountDirection(c.journal, o.direction) + 1, cfg.perturbation)
    requires IsHold(policy) ==> Slot(c, o.direction).None?
    ensures AsAsked(cfg, c, Process(Record(c, o, policy), o.direction, p, policy, sent1, sent2),
                    Emission(o.direction, p.destination, p.payload, p.index), o.timestamp,
                    sent1 && sent2 && NoOverflow(c, o.direction, |p.payload|))
  {
    hide Ledger, Shape, Process, Record, Sends, Leaving, KeptBack, CaptureAction, OneMore, Waiting, WaitsAsAsked, NoOverflow,
         CountDirection;
    LedgerShape(c);
    ProcessedJournal(c, o, policy, p, sent1, sent2);
    ProcessedEmissions(cfg, c, o, policy, p, sent1, sent2);
  }

  /** Processing the datagram just recorded sends what the scenario asks for. */
  lemma DeliverIsRelayed(m: State, r: State, o: Observation, policy: Action, destination: Address,
                         owner: Option<Attribution>, sent1: bool, sent2: bool, failure: nat)
    requires Ledger(m.core) && WithinBudget(m) && !o.wrongSource && !o.auxiliary && r.cfg == m.cfg && r.phase == Looping
    requires policy == PolicyOf(m, o) && r.core == Record(m.core, o, policy)
    requires IsHold(policy) ==> Slot(m.core, o.direction).None?
    requires r.owners == m.owners + [owner] && o.timestamp == CappedStamp(m.cfg, r.status.elapsed)
    requires r.status == m.status.(elapsed := r.status.elapsed)
    ensures Relayed(m, Deliver(r, o.direction, Packet(destination, o.payload, |m.core.journal|), sent1, sent2, failure),
                    o.direction, destination, o.payload, owner, true,
                    sent1 && sent2 && NoOverflow(m.core, o.direction, |o.payload|), failure)
  {
    var d, p := o.direction, Packet(destination, o.payload, |m.core.journal|);
    hide Ledger, Shape, Within, Process, Record, CaptureAction, AsAsked, WaitsAsAsked, NoOverflow, Deliver, Relayed, PolicyOf,
         NextCounters, DirectionOrdinal, WithinBudget, CountDirection;
    WaitingWasKept(m, d);
    PolicyIsPlain(m, o);
    LedgerShape(m.core);
    PolicyAt(m, o);
    RecordedAction(m.core, o, policy);
    ProcessedAsAsked(m.cfg, m.core, o, policy, p, sent1, sent2);
    DeliverIs(r, d, p, policy, sent1, sent2, failure);
    RelayedFrom(m, Deliver(r, d, p, sent1, sent2, failure), Process(r.core, d, p, policy, sent1, sent2),
                Emission(d, destination, o.payload, |m.core.journal|), owner,
                sent1 && sent2 && NoOverflow(m.core, d, |o.payload|), failure);
  }

  lemma RecordedAction(c: Core, o: Observation, policy: Action)
    requires !o.wrongSource && !o.auxiliary
    ensures |Record(c, o, policy).journal| == |c.journal| + 1 && Record(c, o, policy).journal[|c.journal|].action == policy
  {
  }

  lemma PolicyAt(m: State, o: Observation)
    requires Shape(m.core)
    ensures PolicyOf(m, o)
            == CaptureAction(m.cfg.scenario, o.direction, CountDirection(m.core.journal, o.direction) + 1, m.cfg.perturbation)
  {
  }

  lemma RelayedFrom(m: State, n: State, done: Outcome, self: Emission, owner: Option<Attribution>, smooth: bool, failure: nat)
    requires n.core == done.core && n.owners == m.owners + [owner] && n.phase == if done.ok then Looping else Terminal(failure)
    requires n.status == m.status.(elapsed := n.status.elapsed)
    requires AsAsked(m.cfg, m.core, done, self, CappedStamp(m.cfg, n.status.elapsed), smooth) && self.index == |m.core.journal|
    ensures Relayed(m, n, self.direction, self.destination, self.payload, owner, true, smooth, failure)
  {
    hide OneMore, Sends, Leaving, Waiting, KeptBack;
    assert self == Emission(self.direction, self.destination, self.payload, |m.core.journal|);
  }

  lemma DeliverIs(r: State, d: Direction, p: Packet, policy: Action, sent1: bool, sent2: bool, failure: nat)
    requires p.index < |r.core.journal| && r.core.journal[p.index].action == policy && r.phase == Looping
    ensures var n, done := Deliver(r, d, p, sent1, sent2, failure), Process(r.core, d, p, policy, sent1, sent2);
            && n.core == done.core && n.owners == r.owners && n.link == r.link && n.status == r.status
            && n.phase == if done.ok then Looping else Terminal(failure)
  {
    hide Process;
  }

  lemma LedgerShape(c: Core)
    requires Ledger(c)
    ensures Shape(c)
  {
  }

  lemma FaceFields(e: Entry, f: Entry)
    requires Face(e) == Face(f)
    ensures f.timestamp == e.timestamp && f.payload == e.payload && f.direction == e.direction && f.wrongSource == e.wrongSource
            && f.directionOrdinal == e.directionOrdinal
  {
  }

  lemma RelayIsRelayed(m: State, d: Direction, destination: Address, payload: string, attribute: bool, endpoint: Address,
                       delay: nat, stored: bool, sent1: bool, sent2: bool, failure: nat)
    requires Invariant(m) && m.phase == Looping && MayRelay(m, d, destination, attribute, endpoint)
    ensures var n := Relay(m, d, destination, payload, attribute, endpoint, delay, stored, sent1, sent2, failure);
            && Relayed(m, n, d, destination, payload,
                       if Reconnecting(m) && attribute then Some(Attribution(m.link.current, endpoint)) else None,
                       stored && BudgetViolation(m.core.counters, m.cfg.limits, d, |payload|).None?,
                       sent1 && sent2 && NoOverflow(m.core, d, |payload|), failure)
            && n.link == m.link && (n.phase in {Looping, Left, Terminal(failure)})
            && (stored && BudgetViolation(m.core.counters, m.cfg.limits, d, |payload|).None? ==> n.phase != Left)
  {
    var o := Observation(d, payload, false, false, Stamp(Later(m, delay)));
    RelayUnfolds(m, d, destination, payload, attribute, endpoint, delay, stored, sent1, sent2, failure);
    hide Relay, Relayed, Deliver, RecordNow, Invariant, MayRelay, NoOverflow, BudgetViolation;
    if stored && BudgetViolation(m.core.counters, m.cfg.limits, d, |payload|).None? {
      RecordedRelay(m, o, destination, attribute, endpoint, delay, sent1, sent2, failure);
    } else {
      NotRelayed(m, Relay(m, d, destination, payload, attribute, endpoint, delay, stored, sent1, sent2, failure),
                 d, destination, payload,
                 if Reconnecting(m) && attribute then Some(Attribution(m.link.current, endpoint)) else None,
                 sent1 && sent2 && NoOverflow(m.core, d, |payload|), failure);
    }
  }

  lemma NotRelayed(m: State, n: State, d: Direction, destination: Address, payload: string, owner: Option<Attribution>,
                   smooth: bool, failure: nat)
    requires n.core == m.core && n.owners == m.owners && n.phase == Left
    ensures Relayed(m, n, d, destination, payload, owner, false, smooth, failure)
  {
  }

  lemma RelayUnfolds(m: State, d: Direction, destination: Address, payload: string, attribute: bool, endpoint: Address,
                     delay: nat, stored: bool, sent1: bool, sent2: bool, failure: nat)
    ensures var n := Relay(m, d, destination, payload, attribute, endpoint, delay, stored, sent1, sent2, failure);
            var o := Observation(d, payload, false, false, Stamp(Later(m, delay)));
            if stored && BudgetViolation(m.core.counters, m.cfg.limits, d, |payload|).None? then
              n == Deliver(RecordNow(Later(m, delay), o, attribute, endpoint), d, Packet(destination, payload, |m.core.journal|),
                           sent1, sent2, failure)
            else n.core == m.core && n.owners == m.owners && n.phase == Left && n.link == m.link
  {
    hide RecordNow, Deliver, BudgetViolation;
  }

  lemma RecordedRelay(m: State, o: Observation, destination: Address, attribute: bool, endpoint: Address, delay: nat,
                      sent1: bool, sent2: bool, failure: nat)
    requires Invariant(m) && m.phase == Looping && MayRelay(m, o.direction, destination, attribute, endpoint)
    requires !o.wrongSource && !o.auxiliary && o.timestamp == Stamp(Later(m, delay))
    requires BudgetViolation(m.core.counters, m.cfg.limits, o.direction, |o.payload|).None?
    ensures var n := Deliver(RecordNow(Later(m, delay), o, attribute, endpoint), o.direction,
                             Packet(destination, o.payload, |m.core.journal|), sent1, sent2, failure);
            && Relayed(m, n, o.direction, destination, o.payload,
                       if Reconnecting(m) && attribute then Some(Attribution(m.link.current, endpoint)) else None, true,
                       sent1 && sent2 && NoOverflow(m.core, o.direction, |o.payload|), failure)
            && n.link == m.link && n.phase in {Looping, Terminal(failure)}
  {
    var l := Later(m, delay);
    var r := RecordNow(l, o, attribute, endpoint);
    hide Ledger, CoreLive, Within, Final, Record, CaptureAction, Relayed, Process, LinkSound, SlotsSound, Attributed,
         LinkLive, RecordNow, MayRelay, RoutedTo, BudgetViolation, NoOverflow, Deliver;
    LaterStays(m, delay, o.direction, destination, attribute, endpoint);
    OwnersCover(m);
    RecordedOwner(l, o, attribute, endpoint);
    RecordAcceptance(l, o, destination, attribute, endpoint);
    AtMostOneHold(m.core, r, o, PolicyOf(m, o), destination);
    DeliverIsRelayed(m, r, o, PolicyOf(m, o), destination,
                     if Reconnecting(m) && attribute then Some(Attribution(m.link.current, endpoint)) else None, sent1, sent2, failure);
    DeliverKeepsLink(r, o.direction, Packet(destination, o.payload, |m.core.journal|), sent1, sent2, failure);
  }

  lemma DeliverKeepsLink(r: State, d: Direction, p: Packet, sent1: bool, sent2: bool, failure: nat)
    requires p.index < |r.core.journal| && r.phase == Looping
    ensures var n := Deliver(r, d, p, sent1, sent2, failure);
            n.link == r.link && n.phase in {Looping, Terminal(failure)}
  {
    hide Process;
  }

  /** Time passing changes nothing else. */
  lemma LaterStays(m: State, delay: nat, d: Direction, destination: Address, attribute: bool, endpoint: Address)
    requires Invariant(m) && m.phase == Looping && MayRelay(m, d, destination, attribute, endpoint)
    ensures var l := Later(m, delay);
            Sound(l) && LinkLive(l) && l.phase == Looping && MayRelay(l, d, destination, attribute, endpoint)
  {
    hide Ledger, CoreLive, Within, Final, LinkSound, SlotsSound, Attributed, LinkLive;
    WithinLater(m.cfg, m.core.journal, m.status.elapsed, m.status.elapsed + delay, m.status.auxiliaryCount);
    LaterKeeps(m, delay);
  }

  lemma OwnersCover(s: State)
    requires Attributed(s)
    ensures |s.owners| == |s.core.journal|
  {
  }

  lemma RecordedOwner(s: State, o: Observation, attribute: bool, endpoint: Address)
    requires !o.wrongSource
    ensures var r := RecordNow(s, o, attribute, endpoint);
            && r.owners == s.owners + [if Reconnecting(s) && attribute then Some(Attribution(s.link.current, endpoint)) else None]
            && r.core == Record(s.core, o, PolicyOf(s, o)) && r.cfg == s.cfg && r.phase == s.phase && r.link == s.link
            && r.status == s.status
  {
    hide Record, CaptureAction, ObserveGeneration;
  }

  // ---- a datagram that is not relayed ----

  /** A datagram from a wrong source was recorded, unless over budget or not stored, and never sent. */
  ghost predicate Refused(m: State, n: State, d: Direction, payload: string, recorded: bool, auxiliary: bool) {
    if !recorded then n.core == m.core && n.owners == m.owners && n.phase == Left
    else
      var i, j := |m.core.journal|, n.core.journal;
      && |j| == i + 1 && j[..i] == m.core.journal && j[i].payload == payload && j[i].direction == d
      && j[i].wrongSource && j[i].emitted == [] && j[i].timestamp == CappedStamp(m.cfg, n.status.elapsed)
      && n.core.wire == m.core.wire && n.owners == m.owners + [None]
      && n.core.heldClient == m.core.heldClient && n.core.heldServer == m.core.heldServer
      && n.core.counters.dropped == m.core.counters.dropped + (if auxiliary then 0 else 1)
      && n.core.counters.auxiliary == m.core.counters.auxiliary + (if auxiliary then 1 else 0)
      && n.phase == (if auxiliary then m.phase else Left)
  }

  lemma RecordingIsRefused(m: State, d: Direction, payload: string, auxiliary: bool, endpoint: Address, delay: nat, stored: bool)
    requires m.phase == Looping
    ensures var r := RecordObservation(m, d, payload, true, auxiliary, true, endpoint, delay, stored);
            var n := if r.ok && !auxiliary then r.state.(phase := Left) else r.state;
            && Refused(m, n, d, payload, stored && BudgetViolation(m.core.counters, m.cfg.limits, d, |payload|).None?, auxiliary)
            && r.state.link == m.link && (r.ok <==> stored && BudgetViolation(m.core.counters, m.cfg.limits, d, |payload|).None?)
  {
    hide BudgetViolation, CaptureAction;
    var r := RecordObservation(m, d, payload, true, auxiliary, true, endpoint, delay, stored);
    if r.ok { assert r.state.core.journal[..|m.core.journal|] == m.core.journal; }
  }

  // ---- the server's datagrams ----

  /** Where a datagram goes, and whom it is counted for. */
  datatype Course = Nowhere | Foreign | Towards(destination: Address, owner: Option<Attribution>)

  /** Before a retirement is prepared the server speaks to the client; then to A, which it is counted
      for until its shutdown is confirmed; and to B once B is known and the transition proves it. */
  function ServerCourse(s: State, source: Address, route: Route): Course
    requires s.link.prepared ==> s.link.retired.Some?
  {
    var l := s.link;
    if source != s.cfg.server then Foreign
    else if !l.prepared then
      if l.client.None? then Foreign
      else Towards(l.client.value, if Reconnecting(s) then Some(Attribution(0, l.client.value)) else None)
    else if !l.requested then Towards(l.retired.value, Some(Attribution(0, l.retired.value)))
    else match route
      case Rejected => Nowhere
      case ToRetiredA => Towards(l.retired.value, None)
      case ToB =>
        if !l.completed then Towards(l.retired.value, None)
        else if l.client.None? then Nowhere
        else Towards(l.client.value, Some(Attribution(1, l.client.value)))
  }

  predicate Recordable(m: State, d: Direction, payload: string, stored: bool) {
    stored && BudgetViolation(m.core.counters, m.cfg.limits, d, |payload|).None?
  }

  /** A datagram is recorded when it could be stored and the journal has room for it. */
  lemma RecordableExactly(m: State, d: Direction, payload: string, stored: bool)
    requires Ledger(m.core) && WithinBudget(m)
    ensures var j, l := m.core.journal, m.cfg.limits;
            Recordable(m, d, payload, stored) <==>
            && stored && |payload| <= l.maxPayload && |j| < l.maxDatagrams && CountBytes(j) + |payload| <= l.maxRawBytes
            && CountDirection(j, d) < if d == ClientToServer then l.maxClientPackets else l.maxServerPackets
  {
    hide WireMatches, SlotMatches, EntryShape;
  }

  ghost predicate ServerOutcome(m: State, n: State, t: Tick, source: Address, payload: string)
    requires m.link.prepared ==> m.link.retired.Some?
  {
    var recorded := Recordable(m, ServerToClient, payload, t.serverStored);
    match ServerCourse(m, source, t.route)
    case Nowhere => n.core == m.core && n.owners == m.owners && n.phase == Terminal(23)
    case Foreign => Refused(m, n, ServerToClient, payload, recorded, false)
    case Towards(destination, owner) =>
      Relayed(m, n, ServerToClient, destination, payload, owner, recorded,
              t.serverSent1 && t.serverSent2 && NoOverflow(m.core, ServerToClient, |payload|), 10)
  }

  /** What the progress of the reconnect says about the endpoints while the loop goes on. */
  predicate Linked(s: State) {
    var l := s.link;
    && (l.prepared ==> l.retired.Some? && Reconnecting(s) && l.tailEmitter) && (!l.prepared ==> l.current == 0)
    && (!l.requested ==> l.current == 0 && !l.completed) && (l.completed && l.client.Some? ==> l.current == 1)
    && (l.prepared && !l.completed ==> l.client == l.retired) && (!Reconnecting(s) ==> !l.prepared && l.current == 0)
    && (l.current == 1 ==> l.completed && l.client.Some?) && l.current <= 1 && (l.requested ==> l.prepared)
  }

  lemma LinkFacts(s: State)
    requires Invariant(s) && s.phase == Looping
    ensures Linked(s)
  {
    hide Ledger, CoreLive, Within, Final, Attributed;
  }

  lemma ServerSends(m: State, t: Tick, destination: Address, attribute: bool, payload: string)
    requires Invariant(m) && m.phase == Looping && MayRelay(m, ServerToClient, destination, attribute, destination)
    ensures var n := Relay(m, ServerToClient, destination, payload, attribute, destination, t.serverDelay, t.serverStored,
                           t.serverSent1, t.serverSent2, 10);
            && Relayed(m, n, ServerToClient, destination, payload,
                       if Reconnecting(m) && attribute then Some(Attribution(m.link.current, destination)) else None,
                       Recordable(m, ServerToClient, payload, t.serverStored),
                       t.serverSent1 && t.serverSent2 && NoOverflow(m.core, ServerToClient, |payload|), 10)
            && n.phase in {Looping, Left, Terminal(10)}
            && (n.phase == Left ==> !Recordable(m, ServerToClient, payload, t.serverStored))
  {
    hide Invariant, Relay, Relayed, MayRelay, NoOverflow;
    RelayIsRelayed(m, ServerToClient, destination, payload, attribute, destination, t.serverDelay, t.serverStored,
                   t.serverSent1, t.serverSent2, 10);
  }

  lemma OnServerCourse(m: State, t: Tick, source: Address, payload: string)
    requires Invariant(m) && m.phase == Looping && t.fromServer == Datagram(source, payload)
    requires m.link.prepared ==> m.link.retired.Some?
    ensures ServerOutcome(m, OnServer(m, t), t, source, payload)
    ensures ServerCourse(m, source, t.route).Towards? ==> OnServer(m, t).phase in {Looping, Left, Terminal(10)}
    ensures OnServer(m, t).phase == Left ==> ServerCourse(m, source, t.route).Foreign? || !Recordable(m, ServerToClient, payload, t.serverStored)
  {
    hide Invariant, MayRelay, RecordObservation, Relay, Relayed, Refused, NoOverflow, BudgetViolation, OnPreparedServer;
    LinkFacts(m);
    var l := m.link;
    if source != m.cfg.server || (!l.prepared && l.client.None?) {
      ForeignCourse(m, t, source, payload);
    } else if !l.prepared {
      ServerMayRelay(m, t);
      ServerSends(m, t, l.client.value, true, payload);
    } else {
      PreparedCourse(m, t, source, payload);
    }
  }

  lemma ForeignCourse(m: State, t: Tick, source: Address, payload: string)
    requires m.phase == Looping
    ensures Refused(m, OnForeignServer(m, payload, t, source), ServerToClient, payload,
                    Recordable(m, ServerToClient, payload, t.serverStored), false)
    ensures OnForeignServer(m, payload, t, source).phase == Left
  {
    RecordingIsRefused(m, ServerToClient, payload, false, source, t.serverDelay, t.serverStored);
    hide RecordObservation, BudgetViolation;
  }

  lemma PreparedCourse(m: State, t: Tick, source: Address, payload: string)
    requires Invariant(m) && m.phase == Looping && t.fromServer == Datagram(source, payload)
    requires m.link.prepared && m.link.retired.Some? && source == m.cfg.server
    ensures ServerOutcome(m, OnPreparedServer(m, payload, t), t, source, payload)
    ensures ServerCourse(m, source, t.route).Towards? ==> OnPreparedServer(m, payload, t).phase in {Looping, Left, Terminal(10)}
    ensures OnPreparedServer(m, payload, t).phase == Left ==> !Recordable(m, ServerToClient, payload, t.serverStored)
  {
    hide Invariant, MayRelay, Relay, Relayed, NoOverflow, BudgetViolation, Recordable;
    LinkFacts(m);
    ServerMayRelay(m, t);
    var l := m.link;
    if !l.requested {
      ServerSends(m, t, l.retired.value, true, payload);
    } else if l.completed && t.route == ToB {
      if l.client.Some? { ServerSends(m, t, l.client.value, true, payload); }
    } else if t.route != Rejected {
      ServerSends(m, t, l.retired.value, false, payload);
    }
  }

  lemma ServerMayRelay(m: State, t: Tick)
    requires Invariant(m) && m.phase == Looping
    ensures var l := m.link;
            && (!l.prepared && l.client.Some? ==> MayRelay(m, ServerToClient, l.client.value, true, l.client.value))
            && (l.prepared && !l.requested ==> MayRelay(m, ServerToClient, l.retired.value, true, l.retired.value))
            && (l.prepared ==> MayRelay(m, ServerToClient, l.retired.value, false, l.retired.value))
            && (l.completed && l.client.Some? ==> MayRelay(m, ServerToClient, l.client.value, true, l.client.value))
  {
    LinkFacts(m);
    hide Invariant;
  }

  /** The rest of the turn changes neither journal, nor wire, nor attributions. */
  lemma RestOfTurn(m: State, n: State, t: Tick, source: Address, payload: string)
    requires m.link.prepared ==> m.link.retired.Some?
    requires ServerOutcome(m, n, t, source, payload) && n.phase == Looping
    ensures ServerOutcome(m, EndOfTurn(n, t), t, source, payload)
  {
    hide Sends, Leaving, OneMore, NoOverflow, BudgetViolation;
  }

  /** What a turn makes of a datagram of the server, whatever else happens in the turn. */
  lemma ServerDatagram(s: State, t: Tick, source: Address, payload: string)
    requires Invariant(s) && s.phase == Looping && t.fromServer == Datagram(source, payload)
    requires t.stopBetween == NotSignaled
    requires var half := ClientHalf(s, t); half.next && half.state.phase == Looping && half.state.status.limitReached.None?
    ensures var m := ClientHalf(s, t).state;
            && (m.link.prepared ==> m.link.retired.Some?)
            && ServerOutcome(m, Iterate(s, t), t, source, payload)
  {
    var m := ClientHalf(s, t).state;
    HalfKeeps(s, t);
    LinkFacts(m);
    OnServerCourse(m, t, source, payload);
    var n := OnServer(m, t);
    hide Invariant, ClientHalf, OnServer, ServerOutcome, EndOfTurn;
    if n.phase == Looping { RestOfTurn(m, n, t, source, payload); }
  }

  /** A datagram that was relayed without trouble leaves the loop going, unless the quiet check ends it. */
  lemma ServerGoesOn(s: State, t: Tick, source: Address, payload: string)
    requires Invariant(s) && s.phase == Looping && t.fromServer == Datagram(source, payload)
    requires t.stopBetween == NotSignaled && !t.quietElapsed
    requires var half := ClientHalf(s, t);
             && half.next && half.state.phase == Looping && half.state.status.limitReached.None? && !half.state.status.wrongSource
    requires var m := ClientHalf(s, t).state;
             && (m.link.prepared ==> m.link.retired.Some?) && ServerCourse(m, source, t.route).Towards?
             && Recordable(m, ServerToClient, payload, t.serverStored)
             && t.serverSent1 && t.serverSent2 && NoOverflow(m.core, ServerToClient, |payload|)
    ensures Iterate(s, t).phase == Looping && Iterate(s, t).link == ClientHalf(s, t).state.link
  {
    var m := ClientHalf(s, t).state;
    hide Invariant, ClientHalf, OnServer, ServerCourse, Recordable, NoOverflow, ServerOutcome, LinkSound;
    HalfKeeps(s, t);
    OnServerCourse(m, t, source, payload);
    ServerLink(m, t);
    RelayedWell(m, OnServer(m, t), t, source, payload);
  }

  lemma RelayedWell(m: State, n: State, t: Tick, source: Address, payload: string)
    requires m.link.prepared ==> m.link.retired.Some?
    requires ServerOutcome(m, n, t, source, payload) && ServerCourse(m, source, t.route).Towards?
    requires Recordable(m, ServerToClient, payload, t.serverStored)
    requires t.serverSent1 && t.serverSent2 && NoOverflow(m.core, ServerToClient, |payload|)
    ensures n.phase != Terminal(10) && n.status.wrongSource == m.status.wrongSource
  {
    hide Sends, Leaving, OneMore, NoOverflow, ServerCourse, Recordable, Waiting, KeptBack;
  }

  lemma HalfKeeps(s: State, t: Tick)
    requires Invariant(s) && s.phase == Looping
    ensures ClientHalf(s, t).next ==> Invariant(ClientHalf(s, t).state) && ClientHalf(s, t).state.phase == Looping
  {
    hide Ledger, CoreLive, Within, Final;
    StopKeeps(s, t.stopBefore);
    var s1 := CheckStop(s, t.stopBefore);
    if s1.phase == Looping {
      SignalKeeps(s1, t);
      var s2 := OnSignal(s1, t);
      if s2.phase == Looping { ClientKeeps(s2, t); }
    }
  }

  // ---- the client's datagrams ----

  /** The known client speaks to the server. An unknown source becomes the client when none is known: the
      first one of a run, or B once A's retirement is complete, if it opens a connection from the
      loopback and from another endpoint than A's. */
  function ClientCourse(s: State, source: Address, payload: string, t: Tick): Course {
    var l := s.link;
    if source.host != LOOPBACK_HOST then Foreign
    else if l.client.Some? then
      if l.client != Some(source) then Foreign
      else if Reconnecting(s) && l.current == 1 && !t.bObserveOk then Nowhere
      else Towards(s.cfg.server, if Reconnecting(s) then Some(Attribution(l.current, source)) else None)
    else if IsAuxiliaryQuery(payload) then Foreign
    else if !Reconnecting(s) then Towards(s.cfg.server, None)
    else if !IsConnectionless(payload) then Foreign
    else if !l.completed then Towards(s.cfg.server, Some(Attribution(0, source)))
    else if t.bLearned || l.retired == Some(source) then Foreign
    else if !t.bObserveOk then Nowhere
    else Towards(s.cfg.server, Some(Attribution(1, source)))
  }

  /** A query of another local program, tolerated while a functional capture counts fewer than eight. */
  predicate Tolerated(s: State, source: Address, payload: string) {
    && s.cfg.functional && source.host == LOOPBACK_HOST && s.link.client.Some? && s.link.client != Some(source)
    && s.status.auxiliaryCount < 8 && payload == "\U{ff}\U{ff}\U{ff}\U{ff}TSource Engine Query\0"
  }

  ghost predicate ClientOutcome(m: State, n: State, t: Tick, source: Address, payload: string) {
    var recorded := Recordable(m, ClientToServer, payload, t.clientStored);
    match ClientCourse(m, source, payload, t)
    case Nowhere => n.core == m.core && n.owners == m.owners && n.link == m.link && n.phase == Terminal(23)
    case Foreign => n.link == m.link && Refused(m, n, ClientToServer, payload, recorded, Tolerated(m, source, payload))
    case Towards(destination, owner) =>
      && Relayed(m, n, ClientToServer, destination, payload, owner, recorded,
                 t.clientSent1 && t.clientSent2 && NoOverflow(m.core, ClientToServer, |payload|), 8)
      && n.link == m.link.(client := Some(source), current := if owner.Some? then owner.value.generation else m.link.current,
                           distinct := n.link.distinct)
      && n.phase in {Looping, Left, Terminal(8)} && (recorded ==> n.phase != Left)
  }

  lemma ClientSends(m: State, l: State, t: Tick, source: Address, payload: string)
    requires Invariant(l) && l.phase == Looping && MayCount(l, source)
    requires l == m.(link := l.link)
    ensures var n := Relay(l, ClientToServer, m.cfg.server, payload, true, source, t.clientDelay, t.clientStored,
                           t.clientSent1, t.clientSent2, 8);
            && Relayed(m, n, ClientToServer, m.cfg.server, payload,
                       if Reconnecting(m) then Some(Attribution(l.link.current, source)) else None,
                       Recordable(m, ClientToServer, payload, t.clientStored),
                       t.clientSent1 && t.clientSent2 && NoOverflow(m.core, ClientToServer, |payload|), 8)
            && n.link == l.link && n.phase in {Looping, Left, Terminal(8)}
            && (Recordable(m, ClientToServer, payload, t.clientStored) ==> n.phase != Left)
  {
    var n := Relay(l, ClientToServer, m.cfg.server, payload, true, source, t.clientDelay, t.clientStored,
                   t.clientSent1, t.clientSent2, 8);
    hide Invariant, Relay, NoOverflow, Relayed, BudgetViolation;
    RelayIsRelayed(l, ClientToServer, m.cfg.server, payload, true, source, t.clientDelay, t.clientStored,
                   t.clientSent1, t.clientSent2, 8);
    RelayedFromHere(l, m, n, ClientToServer, m.cfg.server, payload,
                    if Reconnecting(m) then Some(Attribution(l.link.current, source)) else None,
                    Recordable(m, ClientToServer, payload, t.clientStored),
                    t.clientSent1 && t.clientSent2 && NoOverflow(m.core, ClientToServer, |payload|), 8);
  }

  /** The link has no part in it. */
  lemma RelayedFromHere(l: State, m: State, n: State, d: Direction, destination: Address, payload: string,
                        owner: Option<Attribution>, recorded: bool, smooth: bool, failure: nat)
    requires l.core == m.core && l.owners == m.owners && l.cfg == m.cfg && l.status == m.status
    requires Relayed(l, n, d, destination, payload, owner, recorded, smooth, failure)
    ensures Relayed(m, n, d, destination, payload, owner, recorded, smooth, failure)
  {
    hide Sends, Leaving, OneMore, Waiting, KeptBack;
  }

  lemma QuerySpelled(payload: string)
    ensures IsAuxiliaryQuery(payload) <==> payload == "\U{ff}\U{ff}\U{ff}\U{ff}TSource Engine Query\0"
  {
    assert AUXILIARY_QUERY == "\U{ff}\U{ff}\U{ff}\U{ff}TSource Engine Query\0";
  }

  lemma ForeignClientCourse(m: State, t: Tick, source: Address, payload: string)
    requires m.phase == Looping
    ensures var n := OnForeignClient(m, source, payload, t).state;
            && Refused(m, n, ClientToServer, payload, Recordable(m, ClientToServer, payload, t.clientStored), Tolerated(m, source, payload))
            && n.link == m.link
  {
    QuerySpelled(payload);
    hide IsAuxiliaryQuery, RecordObservation, BudgetViolation;
    RecordingIsRefused(m, ClientToServer, payload, Tolerated(m, source, payload), source, t.clientDelay, t.clientStored);
  }

  lemma CourseOfForeign(m: State, t: Tick, source: Address, payload: string)
    requires Linked(m)
    ensures ForeignSource(m, source, payload, t.bLearned) <==> ClientCourse(m, source, payload, t).Foreign?
  {
    hide IsAuxiliaryQuery, IsConnectionless;
  }

  lemma CourseOfOwn(m: State, t: Tick, source: Address, payload: string)
    requires Linked(m) && !ForeignSource(m, source, payload, t.bLearned)
    ensures var l := LearnClient(m, source, payload, t);
            match ClientCourse(m, source, payload, t)
            case Foreign => true
            case Nowhere => l == Fail(m, 23)
            case Towards(destination, owner) =>
              && l == m.(link := l.link)
              && l.link == m.link.(client := Some(source), current := l.link.current, distinct := l.link.distinct)
              && destination == m.cfg.server
              && owner == (if Reconnecting(m) then Some(Attribution(l.link.current, source)) else None)
              && (!Reconnecting(m) ==> l.link.current == m.link.current)
  {
    hide IsAuxiliaryQuery, IsConnectionless;
    if m.link.client.Some? {
      hide EndpointBValid, InitialEndpointValid;
      assert !EndpointBValid(m, source, payload, t.bLearned) by { KnownClient(m, source, payload, t); }
    }
  }

  lemma KnownClient(m: State, source: Address, payload: string, t: Tick)
    requires m.link.client.Some?
    ensures !EndpointBValid(m, source, payload, t.bLearned)
  {
  }

  lemma OnClientCourse(m: State, t: Tick, source: Address, payload: string)
    requires Invariant(m) && m.phase == Looping && t.fromClient == Datagram(source, payload)
    ensures ClientOutcome(m, OnClient(m, t).state, t, source, payload)
  {
    LinkFacts(m);
    CourseOfForeign(m, t, source, payload);
    hide Linked;
    if ForeignSource(m, source, payload, t.bLearned) {
      hide Invariant, ForeignSource, OnForeignClient, ClientCourse, Refused, Recordable, Tolerated;
      ForeignClientCourse(m, t, source, payload);
    } else {
      OwnClientCourse(m, t, source, payload);
      hide Invariant, ForeignSource, OnOwnClient, ClientOutcome;
    }
  }

  lemma OwnClientCourse(m: State, t: Tick, source: Address, payload: string)
    requires Invariant(m) && m.phase == Looping && t.fromClient == Datagram(source, payload)
    requires !ForeignSource(m, source, payload, t.bLearned)
    ensures ClientOutcome(m, OnOwnClient(m, source, payload, t).state, t, source, payload)
  {
    hide Invariant, ForeignSource, LearnClient, ClientCourse, Relayed, Relay, Recordable, NoOverflow, MayCount;
    LinkFacts(m);
    hide Linked;
    CourseOfForeign(m, t, source, payload);
    CourseOfOwn(m, t, source, payload);
    LearnKeeps(m, source, payload, t);
    var l := LearnClient(m, source, payload, t);
    if l.phase == Looping { ClientSends(m, l, t, source, payload); }
  }

  /** What the first half of a turn makes of a datagram of the client; `m` is where the stop poll and the
      signal have left the relay. */
  lemma ClientDatagram(s: State, t: Tick, source: Address, payload: string)
    requires Invariant(s) && s.phase == Looping && t.fromClient == Datagram(source, payload)
    requires ClientHalf(s, t.(fromClient := Nothing)).next
    ensures ClientOutcome(ClientHalf(s, t.(fromClient := Nothing)).state, ClientHalf(s, t).state, t, source, payload)
  {
    var m := ClientHalf(s, t.(fromClient := Nothing)).state;
    SignalIgnoresClient(s, t);
    HalfKeeps(s, t.(fromClient := Nothing));
    hide Invariant, ClientOutcome, OnClient, ClientHalf;
    OnClientCourse(m, t, source, payload);
  }

  lemma SignalIgnoresClient(s: State, t: Tick)
    requires ClientHalf(s, t.(fromClient := Nothing)).next
    ensures ClientHalf(s, t) == OnClient(ClientHalf(s, t.(fromClient := Nothing)).state, t)
  {
    assert OnSignal(CheckStop(s, t.stopBefore), t) == OnSignal(CheckStop(s, t.stopBefore), t.(fromClient := Nothing));
    hide OnSignal;
  }

  // ---- signals and quiet ----

  /** A is known, its whole handshake was seen, and nothing is held. */
  predicate Settleable(s: State) {
    s.link.client.Some? && GenerationComplete(s.genA) && s.core.heldClient.None? && s.core.heldServer.None?
  }

  /** What a transition signal does: the first prepares A's retirement, the second confirms its shutdown, a
      third is one too many. Neither touches journal or wire. */
  lemma SignalTurn(s: State, t: Tick)
    requires s.phase == Looping && Reconnecting(s) && !t.deadline && t.stopBefore == NotSignaled && t.signal == Signaled
    requires t.fromClient == Nothing
    ensures var n, l := ClientHalf(s, t).state, s.link;
            && n == s.(link := n.link, phase := n.phase)
            && (if l.current != 0 || !Settleable(s) then n.link == l && n.phase == Terminal(19)
                else if !l.prepared && t.emitterReady && t.prepareOk then
                  && n.link == l.(retired := l.client, tailEmitter := true, prepared := true)
                  && n.phase == (if t.ackOk then Looping else Terminal(21))
                else if l.prepared && !l.requested && l.retired.Some? && l.tailEmitter && t.confirmOk then
                  n.link == l.(requested := true) && n.phase == Looping
                else n.link == l && n.phase == Terminal(if !l.prepared && !t.emitterReady then 24 else 20))
  {
    hide GenerationComplete;
  }

  /** A turn in which nothing arrives changes neither journal nor wire; once A's shutdown is confirmed and
      the line was quiet for long enough, the client is forgotten and B may be learnt. */
  lemma QuietTurn(s: State, t: Tick)
    requires s.phase == Looping && !t.deadline && t.stopBefore == NotSignaled && t.stopBetween == NotSignaled
    requires Reconnecting(s) ==> t.signal == NotSignaled
    requires t.fromClient == Nothing && t.fromServer == Nothing && s.status.limitReached.None? && !s.status.wrongSource
    ensures var n, l := Iterate(s, t), s.link;
            && n == s.(link := n.link, phase := n.phase)
            && (if !l.requested || l.completed || !t.quietElapsed then n == s
                else if !Settleable(s) then n.link == l && n.phase == Terminal(20)
                else if !t.relearnOk then n.link == l.(client := None) && n.phase == Terminal(20)
                else && n.link == l.(client := None, quiet := true, completed := true)
                     && n.phase == if t.relearnAckOk then Looping else Terminal(21))
  {
    hide GenerationComplete;
  }

  // ---- the counters never overflow ----

  lemma {:induction false} WireBytesBounded(w: seq<Emission>, size: nat)
    requires forall k :: 0 <= k < |w| ==> |w[k].payload| <= size
    ensures WireBytes(w) <= |w| * size
  {
    if w != [] {
      var n := |w| - 1;
      WireBytesBounded(w[..n], size);
      assert |w| * size == n * size + size;
    }
  }

  lemma Times(n: nat, size: nat)
    requires n <= 131072 && size <= 65507
    ensures n * size <= 131072 * 65507
  {
    assert n * size + (131072 - n) * size == 131072 * size;
    assert (131072 - n) * size >= 0;
  }

  /** In no reachable state can another datagram make a counter of emissions overflow. */
  lemma NeverOverflows(s: State, d: Direction, payload: string)
    requires Invariant(s) && ValidLimits(s.cfg.limits) && |payload| <= s.cfg.limits.maxPayload
    ensures NoOverflow(s.core, d, |payload|)
  {
    var c, l := s.core, s.cfg.limits;
    assert SlotMatches(c, d);
    assert |c.wire| <= 2 * |c.journal| <= 131072;
    forall i | 0 <= i < |c.journal| ensures |c.journal[i].payload| <= l.maxPayload {
      assert EntryWithin(s.cfg, s.status.elapsed, c.journal[i]);
    }
    forall k | 0 <= k < |c.wire| ensures |c.wire[k].payload| <= l.maxPayload { assert OnWire(c.journal, c.wire, k); }
    hide Final, Attributed, LinkSound, SlotsSound, CoreLive, Shape, Within, EntryWithin, OnWire;
    WireBytesBounded(c.wire, l.maxPayload);
    Times(|c.wire|, l.maxPayload);
  }

  // ---- the flush ----

  /** What is still to be sent to the server when the loop has ended. */
  function StillForServer(s: State): seq<Emission> {
    if s.core.heldClient.None? then []
    else [Emission(ClientToServer, s.cfg.server, s.core.heldClient.value.payload, s.core.heldClient.value.index)]
  }

  /** And to the client. */
  function StillForClient(s: State): seq<Emission> {
    if s.core.heldServer.None? || s.link.client.None? then []
    else [Emission(ServerToClient, s.link.client.value, s.core.heldServer.value.payload, s.core.heldServer.value.index)]
  }

  lemma OneFlushSends(c: Core, d: Direction, destination: Address, sent: bool)
    requires Slot(c, d).Some?
    ensures var r, h := FlushSlot(c, d, destination, sent), Slot(c, d).value;
            && r.core.wire == (if r.ok then c.wire + [Emission(d, destination, h.payload, h.index)] else c.wire)
            && Slot(r.core, Other(d)) == Slot(c, Other(d))
            && (sent && c.counters.emitted < SIZE_MAX && c.counters.emittedBytes + |h.payload| <= SIZE_MAX ==> r.ok)
            && (r.ok ==> sent)
            && (r.ok ==> r.core.counters.emitted == c.counters.emitted + 1
                         && r.core.counters.emittedBytes == c.counters.emittedBytes + |h.payload|)
  {
  }

  lemma HeldFits(s: State, d: Direction)
    requires Ledger(s.core) && WithinBudget(s)
    ensures Slot(s.core, d).Some? ==> |Slot(s.core, d).value.payload| <= s.cfg.limits.maxPayload
  {
    assert SlotMatches(s.core, d);
    if Slot(s.core, d).Some? {
      assert EntryWithin(s.cfg, s.status.elapsed, s.core.journal[Slot(s.core, d).value.index]);
    }
  }

  lemma FlushOverflowsNever(s: State)
    requires Invariant(s) && ValidLimits(s.cfg.limits)
    ensures s.core.counters.emitted + 2 <= SIZE_MAX
    ensures s.core.counters.emittedBytes + (if s.core.heldClient.Some? then |s.core.heldClient.value.payload| else 0)
            + (if s.core.heldServer.Some? then |s.core.heldServer.value.payload| else 0) <= SIZE_MAX
  {
    hide Ledger, CoreLive, Final, LinkSound, SlotsSound, Attributed, WithinBudget, LinkLive, ValidLimits;
    HeldFits(s, ServerToClient);
    NeverOverflows(s, ClientToServer, if s.core.heldServer.Some? then s.core.heldServer.value.payload else "");
  }

  lemma HeldHasClient(s: State)
    requires Invariant(s)
    ensures s.core.heldServer.Some? ==> s.link.client.Some?
    ensures s.core.heldClient.Some? ==> s.core.heldClient.value.destination == s.cfg.server
  {
    hide Ledger, CoreLive, Final, LinkSound, Attributed, WithinBudget, LinkLive;
  }

  /** One half of the flush: all that was due has been sent, or nothing, and then the run has failed. */
  ghost predicate HalfFlushed(s: State, n: State, due: seq<Emission>, ok: bool) {
    && n.core.wire == s.core.wire + (if ok then due else []) && n.phase == (if ok then Left else Terminal(11))
    && n.cfg == s.cfg && n.link == s.link && n.owners == s.owners && n.status == s.status
  }

  predicate RoomToSend(c: Core, size: nat) { c.counters.emitted < SIZE_MAX && c.counters.emittedBytes + size <= SIZE_MAX }

  lemma ServerIsSent(s: State, sent: bool)
    requires s.phase == Left && (s.core.heldClient.Some? ==> s.core.heldClient.value.destination == s.cfg.server)
    requires s.core.heldClient.Some? ==> RoomToSend(s.core, |s.core.heldClient.value.payload|)
    ensures var n := FlushClientSlot(s, sent);
            && HalfFlushed(s, n, StillForServer(s), sent || s.core.heldClient.None?) && n.core.heldServer == s.core.heldServer
            && n.core.counters.emitted <= s.core.counters.emitted + 1
            && n.core.counters.emittedBytes <= s.core.counters.emittedBytes
                                               + if s.core.heldClient.Some? then |s.core.heldClient.value.payload| else 0
  {
    if s.core.heldClient.Some? { OneFlushSends(s.core, ClientToServer, s.core.heldClient.value.destination, sent); }
    hide FlushSlot;
  }

  lemma ClientIsSent(s: State, sent: bool)
    requires s.phase == Left && (s.core.heldServer.Some? ==> s.link.client.Some? && RoomToSend(s.core, |s.core.heldServer.value.payload|))
    ensures HalfFlushed(s, FlushServerSlot(s, sent), StillForClient(s), sent || s.core.heldServer.None?)
  {
    if s.core.heldServer.Some? { OneFlushSends(s.core, ServerToClient, s.link.client.value, sent); }
    hide FlushSlot;
  }

  /** A run that left the loop sends what still waits, the client's datagram first, and fails exactly when
      one of these sends does; a datagram that could not be stored ends it before that. */
  lemma FlushSends(s: State, clientSent: bool, serverSent: bool)
    requires Invariant(s) && ValidLimits(s.cfg.limits) && s.phase == Left
    ensures var n := Flush(s, clientSent, serverSent);
            if s.status.storeFailed then n == s.(phase := Terminal(15))
            else
              && Sends(s.core.wire, n.core.wire, StillForServer(s) + StillForClient(s), n.phase == Left)
              && n.phase in {Left, Terminal(11)} && n.link == s.link && n.owners == s.owners && n.status == s.status
              && (n.phase == Left <==> (clientSent || s.core.heldClient.None?) && (serverSent || s.core.heldServer.None?))
  {
    hide FlushClientSlot, FlushServerSlot, Invariant, ValidLimits;
    HeldHasClient(s);
    FlushOverflowsNever(s);
    ServerIsSent(s, clientSent);
    var s1 := FlushClientSlot(s, clientSent);
    if s1.phase == Left { ClientIsSent(s1, serverSent); }
  }
}
