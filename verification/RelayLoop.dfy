/** The relay as it runs: the capture loop over fields that are updated in place, proved equal,
    step by step, to the state machine whose runs the other modules reason about. */
module RelayLoop {
  import opened Common
  import opened RelayTypes
  import opened RelayCore
  import opened RelayMachine
  import opened RelaySafety

  class CaptureRelay {
    const cfg: Config
    var journal: seq<Entry>
    var counters: Counters
    var heldClient: Option<HeldDatagram>
    var heldServer: Option<HeldDatagram>
    var perturbations: nat
    var reorderCompleted: bool
    var client: Option<Address>
    var retired: Option<Address>
    var tailEmitter: bool
    var generations: seq<Generation>
    var current: nat
    var prepared: bool
    var requested: bool
    var completed: bool
    var quiet: bool
    var distinct: bool
    var wrongSource: bool
    var stopRequested: bool
    var limitReached: Option<BudgetError>
    var auxiliaryCount: nat
    var storeFailed: bool
    var elapsed: nat
    var phase: Phase
    ghost var wire: seq<Emission>                 // what the sockets have accepted
    ghost var owners: seq<Option<Attribution>>

    ghost predicate Valid()
      reads this`journal, this`heldClient, this`heldServer, this`generations, this`current
    {
      && InRange(heldClient, |journal|) && InRange(heldServer, |journal|)
      && |generations| == 2 && current <= 1
    }

    ghost function CoreView(): Core
      reads this`journal, this`counters, this`heldClient, this`heldServer, this`perturbations,
            this`reorderCompleted, this`wire, this`generations, this`current
      requires Valid()
    {
      Core(journal, counters, heldClient, heldServer, perturbations, reorderCompleted, wire)
    }

    ghost function LinkView(): Link
      reads this`client, this`retired, this`tailEmitter, this`current, this`prepared, this`requested,
            this`completed, this`quiet, this`distinct
    {
      Link(client, retired, tailEmitter, current, prepared, requested, completed, quiet, distinct)
    }

    ghost function StatusView(): Status
      reads this`wrongSource, this`stopRequested, this`limitReached, this`auxiliaryCount, this`storeFailed, this`elapsed
    {
      Status(wrongSource, stopRequested, limitReached, auxiliaryCount, storeFailed, elapsed)
    }

    ghost function View(): State
      reads this
      requires Valid()
    {
      State(cfg, CoreView(), LinkView(), generations[0], generations[1], owners, StatusView(), phase)
    }

    constructor (cfg: Config)
      ensures Valid() && View() == Initial(cfg) && this.cfg == cfg
    {
      this.cfg := cfg;
      journal, counters, heldClient, heldServer := [], ZERO_COUNTERS, None, None;
      perturbations, reorderCompleted := 0, false;
      client, retired, tailEmitter := None, None, false;
      generations, current := [NEW_GENERATION, NEW_GENERATION], 0;
      prepared, requested, completed, quiet, distinct := false, false, false, false, false;
      wrongSource, stopRequested, limitReached := false, false, None;
      auxiliaryCount, storeFailed, elapsed, phase := 0, false, 0, Looping;
      wire, owners := [], [];
    }

    // ---- emission ----

    method EmitAndRecord(d: Direction, p: Packet, sent: bool) returns (ok: bool)
      requires Valid() && p.index < |journal|
      modifies this`journal, this`counters, this`wire
      ensures Valid() && |journal| == old(|journal|)
      ensures Outcome(CoreView(), ok) == TryEmit(old(CoreView()), d, p, sent)
    {
      if EmissionOverflows(counters, |p.payload|) { return false; }
      var next := CountEmission(counters, |p.payload|);
      var entry := journal[p.index];
      journal := journal[p.index := entry.(emitted := entry.emitted + [counters.emitted])];
      if !sent {
        var pushed := journal[p.index];
        journal := journal[p.index := pushed.(emitted := pushed.emitted[..|pushed.emitted| - 1])];
        assert journal == old(journal);
        return false;
      }
      journal := journal[p.index := journal[p.index].(delivered := true)];
      counters := next;
      wire := wire + [Emission(d, p.destination, p.payload, p.index)];
      assert journal == old(journal)[p.index := entry.(emitted := entry.emitted + [old(counters).emitted], delivered := true)];
      return true;
    }

    method SetHoldState(index: nat, h: HoldState)
      requires Valid() && index < |journal|
      modifies this`journal
      ensures Valid() && |journal| == old(|journal|)
      ensures CoreView() == SetHold(old(CoreView()), index, h)
    {
      journal := journal[index := journal[index].(holdState := h)];
    }

    method SetSlot(d: Direction, h: Option<HeldDatagram>)
      requires Valid() && InRange(h, |journal|)
      modifies this`heldClient, this`heldServer
      ensures Valid() && CoreView() == WithSlot(old(CoreView()), d, h)
    {
      if d == ClientToServer { heldClient := h; } else { heldServer := h; }
    }

    // ---- processing one accepted datagram ----

    method ReleaseWith(d: Direction, p: Packet, h: HeldDatagram, sent1: bool, sent2: bool) returns (ok: bool)
      requires Valid() && p.index < |journal| && Slot(CoreView(), d) == Some(h)
      modifies this`journal, this`counters, this`wire, this`heldClient, this`heldServer, this`reorderCompleted
      ensures Valid() && |journal| == old(|journal|)
      ensures Outcome(CoreView(), ok) == ReleaseHeld(old(CoreView()), d, p, sent1, sent2)
    {
      var earlier := Packet(h.destination, h.payload, h.index);
      if h.reorder {
        ok := EmitAndRecord(d, p, sent1);
        if !ok { return; }
        ok := EmitAndRecord(d, earlier, sent2);
        if !ok { return; }
      } else {
        ok := EmitAndRecord(d, earlier, sent1);
        if !ok { return; }
        ok := EmitAndRecord(d, p, sent2);
        if !ok { return; }
      }
      SetHoldState(h.index, Released);
      if h.reorder { reorderCompleted := true; }
      SetSlot(d, None);
    }

    method ProcessDatagram(d: Direction, p: Packet, action: Action, sent1: bool, sent2: bool) returns (ok: bool)
      requires Valid() && p.index < |journal|
      modifies this`journal, this`counters, this`wire, this`heldClient, this`heldServer,
               this`reorderCompleted, this`perturbations
      ensures Valid() && |journal| == old(|journal|)
      ensures Outcome(CoreView(), ok) == Process(old(CoreView()), d, p, action, sent1, sent2)
    {
      hide TryEmit, ReleaseHeld;
      var held := if d == ClientToServer then heldClient else heldServer;
      if held.Some? && action == Forward {
        ok := ReleaseWith(d, p, held.value, sent1, sent2);
        return;
      }
      match action {
        case Forward =>
          ok := EmitAndRecord(d, p, sent1);
        case Drop =>
          counters := counters.(dropped := counters.dropped + 1);
          perturbations := perturbations + 1;
          ok := true;
        case Duplicate =>
          ok := EmitAndRecord(d, p, sent1);
          if ok { ok := EmitAndRecord(d, p, sent2); }
          if ok {
            counters := counters.(duplicated := counters.duplicated + 1);
            perturbations := perturbations + 1;
          }
        case HoldForDelay | HoldForReorder =>
          if held.Some? { return false; }
          SetSlot(d, Some(HeldDatagram(p.payload, p.destination, p.index, action == HoldForReorder)));
          SetHoldState(p.index, Held);
          counters := counters.(delayed := counters.delayed + 1);
          perturbations := perturbations + 1;
          ok := true;
        case AuxiliaryObservation =>
          ok := true;
      }
    }

    // ---- recording ----

    method ObserveTransport(d: Direction, payload: string, ordinal: nat)
      requires Valid()
      modifies this`generations
      ensures Valid()
      ensures generations == old(generations)[current := ObserveGeneration(old(generations)[current], d, payload, ordinal)]
    {
      var g := generations[current];
      if g.first.None? { g := g.(first := Some(ordinal)); }
      g := g.(last := Some(ordinal));
      if d == ClientToServer {
        g := g.(clientPackets := g.clientPackets + 1);
      } else {
        g := g.(serverPackets := g.serverPackets + 1);
      }
      if IsConnectionless(payload) {
        g := g.(connectionless := g.connectionless + 1);
        if d == ClientToServer && IsConnect(payload) { g := g.(connect := true); }
        if d == ServerToClient && g.connect && IsAccept(payload) { g := g.(accept := true); }
      } else if d == ServerToClient && g.accept && g.firstSequenced.None? {
        g := g.(firstSequenced := Some(ordinal));
      }
      generations := generations[current := g];
    }

    /** Appends the entry of a datagram that is within the budget, and counts it. */
    method Append(o: Observation, policy: Action)
      requires Valid()
      modifies this`journal, this`counters, this`perturbations
      ensures Valid() && CoreView() == Record(old(CoreView()), o, policy)
    {
      var next := CountObserved(counters, o.direction, |o.payload|);
      if o.wrongSource {
        next := next.(ignoredWrongSource := next.ignoredWrongSource + 1);
        if o.auxiliary {
          next := next.(auxiliary := next.auxiliary + 1);
        } else {
          next := next.(dropped := next.dropped + 1);
        }
      }
      var ordinal := if o.direction == ClientToServer then next.clientPackets else next.serverPackets;
      var action := if o.auxiliary then AuxiliaryObservation else if o.wrongSource then Drop else policy;
      journal := journal + [NewEntry(|journal|, o.direction, ordinal, o.timestamp, o.payload, action, o.wrongSource)];
      counters := next;
      if o.wrongSource && !o.auxiliary { perturbations := perturbations + 1; }
    }

    method Observe(d: Direction, payload: string, foreign: bool, auxiliary: bool, attribute: bool,
                   endpoint: Address, delay: nat, stored: bool) returns (ok: bool)
      requires Valid()
      modifies this
      ensures Valid() && |journal| == old(|journal|) + (if ok then 1 else 0)
      ensures Recording(View(), ok)
              == RecordObservation(old(View()), d, payload, foreign, auxiliary, attribute, endpoint, delay, stored)
    {
      hide TryRecord, CoreView, LinkView;
      elapsed := elapsed + delay;
      var stamp := if elapsed <= cfg.limits.maxTimestamp then elapsed else cfg.limits.maxTimestamp;
      ok := TryObserve(Observation(d, payload, foreign, auxiliary, stamp), attribute, endpoint, stored);
    }

    method TryObserve(o: Observation, attribute: bool, endpoint: Address, stored: bool) returns (ok: bool)
      requires Valid()
      modifies this
      ensures Valid() && |journal| == old(|journal|) + (if ok then 1 else 0)
      ensures Recording(View(), ok) == TryRecord(old(View()), o, attribute, endpoint, stored)
    {
      assert CoreView().counters == counters;
      hide RecordNow, BudgetViolation, CoreView, LinkView;
      var violation := BudgetViolation(counters, cfg.limits, o.direction, |o.payload|);
      if violation.Some? {
        limitReached, phase, ok := violation, Left, false;
      } else if !stored {
        storeFailed, phase, ok := true, Left, false;
      } else {
        RecordEntry(o, attribute, endpoint);
        ok := true;
      }
    }

    method RecordEntry(o: Observation, attribute: bool, endpoint: Address)
      requires Valid()
      modifies this`journal, this`counters, this`perturbations, this`owners, this`generations
      ensures Valid() && |journal| == old(|journal|) + 1
      ensures View() == RecordNow(old(View()), o, attribute, endpoint)
    {
      hide LinkView, StatusView;
      var policy := CaptureAction(cfg.scenario, o.direction, DirectionOrdinal(counters, o), cfg.perturbation);
      Append(o, policy);
      hide Record, Attribute, CaptureAction, DirectionOrdinal;
      AttributeLast(o.direction, o.payload, cfg.scenario == Reconnect && !o.wrongSource && attribute, endpoint);
    }

    method AttributeLast(d: Direction, payload: string, counted: bool, endpoint: Address)
      requires Valid() && |journal| > 0
      modifies this`owners, this`generations
      ensures Valid()
      ensures View() == Attribute(old(View()), d, payload, counted, endpoint, |journal| - 1)
    {
      hide StatusView, ObserveGeneration;
      if counted {
        owners := owners + [Some(Attribution(current, endpoint))];
        ObserveTransport(d, payload, |journal| - 1);
      } else {
        owners := owners + [None];
      }
    }

    method Forwarded(d: Direction, destination: Address, payload: string, attribute: bool, endpoint: Address,
                     delay: nat, stored: bool, sent1: bool, sent2: bool, failure: nat)
      requires Valid()
      modifies this
      ensures Valid()
      ensures View() == Relay(old(View()), d, destination, payload, attribute, endpoint, delay, stored, sent1, sent2, failure)
    {
      hide LinkView, StatusView, CaptureAction;
      hide RecordObservation, Process;
      var recorded := Observe(d, payload, false, false, attribute, endpoint, delay, stored);
      if recorded {
        var n := |journal| - 1;
        var ok := ProcessDatagram(d, Packet(destination, payload, n), journal[n].action, sent1, sent2);
        if !ok { phase := Terminal(failure); }
      }
    }

    // ---- one turn of the loop ----

    method PollStop(w: Wait)
      requires Valid()
      modifies this`stopRequested, this`phase
      ensures Valid() && View() == CheckStop(old(View()), w)
    {
      hide CoreView, LinkView;
      if w == Signaled {
        stopRequested, phase := true, Left;
      } else if w == WaitFailed {
        phase := Terminal(17);
      }
    }

    method HandleSignal(t: Tick)
      requires Valid()
      modifies this`retired, this`tailEmitter, this`prepared, this`requested, this`phase
      ensures Valid() && View() == OnSignal(old(View()), t)
    {
      hide StatusView;
      if cfg.scenario != Reconnect || t.signal == NotSignaled { return; }
      if t.signal == WaitFailed { phase := Terminal(20); return; }
      if client.None? || current != 0 || !GenerationComplete(generations[0]) || heldClient.Some? || heldServer.Some? {
        phase := Terminal(19);
      } else if !prepared {
        PrepareForRetirement(t);
      } else if !requested {
        ConfirmClientShutdown(t);
      } else {
        phase := Terminal(20);
      }
    }

    method PrepareForRetirement(t: Tick)
      requires Valid()
      modifies this`retired, this`tailEmitter, this`prepared, this`phase
      ensures Valid() && LinkView() == PrepareRetirement(old(View()), t).link
      ensures phase == PrepareRetirement(old(View()), t).phase
    {
      hide CoreView, StatusView;
      if !t.emitterReady {
        phase := Terminal(24);
      } else if !t.prepareOk {
        phase := Terminal(20);
      } else {
        retired, tailEmitter, prepared := client, true, true;
        if !t.ackOk { phase := Terminal(21); }
      }
    }

    method ConfirmClientShutdown(t: Tick)
      requires Valid()
      modifies this`requested, this`phase
      ensures Valid() && View() == ConfirmShutdown(old(View()), t)
    {
      hide CoreView, StatusView;
      if retired.None? || !tailEmitter || !t.confirmOk { phase := Terminal(20); return; }
      requested := true;
    }

    method HandleForeignClient(source: Address, payload: string, t: Tick) returns (next: bool)
      requires Valid()
      modifies this
      ensures Valid() && ClientTurn(View(), next) == OnForeignClient(old(View()), source, payload, t)
    {
      hide CoreView, RecordObservation;
      next := false;
      var auxiliary := IsAuxiliaryObservation(payload, cfg.functional, source.host == LOOPBACK_HOST,
                                              client.Some?, client == Some(source), auxiliaryCount);
      var ok := Observe(ClientToServer, payload, true, auxiliary, true, source, t.clientDelay, t.clientStored);
      if ok {
        if auxiliary {
          auxiliaryCount := auxiliaryCount + 1;
        } else {
          wrongSource, phase := true, Left;
        }
      }
    }

    method HandleOwnClient(source: Address, payload: string, endpointB: bool, t: Tick) returns (next: bool)
      requires Valid() && phase == Looping && endpointB == EndpointBValid(View(), source, payload, t.bLearned)
      modifies this
      ensures Valid() && ClientTurn(View(), next) == OnOwnClient(old(View()), source, payload, t)
    {
      Learn(source, payload, endpointB, t);
      next := false;
      if phase == Looping {
        hide LearnClient, Relay;
        Forwarded(ClientToServer, cfg.server, payload, true, source,
                  t.clientDelay, t.clientStored, t.clientSent1, t.clientSent2, 8);
        next := phase == Looping;
      }
    }

    method Learn(source: Address, payload: string, endpointB: bool, t: Tick)
      requires Valid() && endpointB == EndpointBValid(View(), source, payload, t.bLearned)
      modifies this`client, this`current, this`distinct, this`phase
      ensures Valid() && View() == LearnClient(old(View()), source, payload, t)
    {
      hide StatusView, EndpointBValid;
      if endpointB {
        if !t.bObserveOk { phase := Terminal(23); return; }
        client, current, distinct := Some(source), 1, true;
      } else if client.None? {
        client := Some(source);
      } else if cfg.scenario == Reconnect && completed && current == 1 && !t.bObserveOk {
        phase := Terminal(23);
      }
    }

    method HandleClient(t: Tick) returns (next: bool)
      requires Valid() && phase == Looping
      modifies this
      ensures Valid() && ClientTurn(View(), next) == OnClient(old(View()), t)
    {
      match t.fromClient {
        case Nothing =>
          next := true;
        case ReceiveFailed =>
          phase, next := Terminal(6), false;
        case Datagram(source, payload) =>
          var loopback := source.host == LOOPBACK_HOST;
          var reconnect := cfg.scenario == Reconnect;
          var initial := client.None? && loopback && !IsAuxiliaryQuery(payload)
                         && (!reconnect || (!completed && current == 0 && IsConnectionless(payload)));
          var endpointB := reconnect && completed && client.None? && !t.bLearned && loopback
                           && retired.Some? && source != retired.value
                           && !IsAuxiliaryQuery(payload) && IsConnectionless(payload);
          if !loopback || (client.Some? && source != client.value) || (client.None? && !initial && !endpointB) {
            next := HandleForeignClient(source, payload, t);
          } else {
            next := HandleOwnClient(source, payload, endpointB, t);
          }
      }
    }

    method HandleForeignServer(payload: string, t: Tick, source: Address)
      requires Valid()
      modifies this
      ensures Valid() && View() == OnForeignServer(old(View()), payload, t, source)
    {
      hide CoreView, LinkView, RecordObservation;
      var ok := Observe(ServerToClient, payload, true, false, true, source, t.serverDelay, t.serverStored);
      if ok { wrongSource, phase := true, Left; }
    }

    method HandlePreparedServer(payload: string, t: Tick)
      requires Valid()
      modifies this
      ensures Valid() && View() == OnPreparedServer(old(View()), payload, t)
    {
      var routeB := false;
      if requested {
        if t.route == Rejected { phase := Terminal(23); return; }
        routeB := completed && t.route == ToB;
      }
      var destination := if routeB then client else retired;
      if destination.None? || (!routeB && !tailEmitter) { phase := Terminal(23); return; }
      Forwarded(ServerToClient, destination.value, payload, !requested || routeB, destination.value,
                t.serverDelay, t.serverStored, t.serverSent1, t.serverSent2, 10);
    }

    method HandleServer(t: Tick)
      requires Valid()
      modifies this
      ensures Valid() && View() == OnServer(old(View()), t)
    {
      match t.fromServer {
        case Nothing =>
        case ReceiveFailed =>
          phase := Terminal(9);
        case Datagram(source, payload) =>
          if source != cfg.server {
            HandleForeignServer(payload, t, source);
          } else if prepared {
            HandlePreparedServer(payload, t);
          } else if client.None? {
            HandleForeignServer(payload, t, source);
          } else {
            Forwarded(ServerToClient, client.value, payload, true, client.value,
                      t.serverDelay, t.serverStored, t.serverSent1, t.serverSent2, 10);
          }
      }
    }

    method HandleQuiet(t: Tick)
      requires Valid()
      modifies this`client, this`quiet, this`completed, this`phase
      ensures Valid() && View() == OnQuiet(old(View()), t)
    {
      hide StatusView;
      if requested && !completed && t.quietElapsed {
        if client.None? || heldClient.Some? || heldServer.Some? || !GenerationComplete(generations[0]) {
          phase := Terminal(20);
        } else {
          BeginRelearn(t);
        }
      }
    }

    method BeginRelearn(t: Tick)
      requires Valid()
      modifies this`client, this`quiet, this`completed, this`phase
      ensures Valid() && LinkView() == Relearn(old(View()), t).link && phase == Relearn(old(View()), t).phase
    {
      hide CoreView, StatusView;
      client := None;
      if !t.relearnOk {
        phase := Terminal(20);
      } else {
        quiet, completed := true, true;
        if !t.relearnAckOk { phase := Terminal(21); }
      }
    }

    method Turn(t: Tick)
      requires Valid() && phase == Looping
      modifies this
      ensures Valid() && View() == Iterate(old(View()), t)
    {
      if t.deadline { phase := Left; return; }
      PollStop(t.stopBefore);
      if phase != Looping { return; }
      HandleSignal(t);
      if phase != Looping { return; }
      var next := HandleClient(t);
      if !next { return; }
      if limitReached.Some? { phase := Left; return; }
      PollStop(t.stopBetween);
      if phase != Looping { return; }
      HandleServer(t);
      if phase != Looping { return; }
      if wrongSource { phase := Left; return; }
      HandleQuiet(t);
    }

    /** The loop itself: it takes turns until it is left or the run has failed. */
    method Loop(ticks: seq<Tick>)
      requires Valid()
      modifies this
      ensures Valid() && View() == Run(old(View()), ticks)
    {
      var n := 0;
      while n < |ticks| && phase == Looping
        invariant n <= |ticks| && Valid()
        invariant Run(View(), ticks[n..]) == Run(old(View()), ticks)
      {
        assert ticks[n..][0] == ticks[n] && ticks[n..][1..] == ticks[n + 1..];
        Turn(ticks[n]);
        n := n + 1;
      }
    }

    // ---- after the loop ----

    method FlushOne(d: Direction, destination: Address, sent: bool) returns (ok: bool)
      requires Valid() && Slot(CoreView(), d).Some?
      modifies this`journal, this`counters, this`wire
      ensures Valid() && |journal| == old(|journal|)
      ensures Outcome(CoreView(), ok) == FlushSlot(old(CoreView()), d, destination, sent)
    {
      var h := if d == ClientToServer then heldClient.value else heldServer.value;
      SetHoldState(h.index, if h.reorder then Unresolved else Released);
      ok := EmitAndRecord(d, Packet(destination, h.payload, h.index), sent);
    }

    method FlushClientHold(sent: bool)
      requires Valid()
      modifies this
      ensures Valid() && View() == FlushClientSlot(old(View()), sent)
    {
      hide StatusView;
      hide FlushSlot;
      if heldClient.Some? {
        var ok := FlushOne(ClientToServer, heldClient.value.destination, sent);
        if !ok { phase := Terminal(11); }
      }
    }

    method FlushServerHold(sent: bool)
      requires Valid()
      modifies this
      ensures Valid() && View() == FlushServerSlot(old(View()), sent)
    {
      hide StatusView;
      hide FlushSlot;
      if heldServer.Some? && client.Some? {
        var ok := FlushOne(ServerToClient, client.value, sent);
        if !ok { phase := Terminal(11); }
      }
    }

    method FlushHeld(clientSent: bool, serverSent: bool)
      requires Valid() && phase == Left
      modifies this
      ensures Valid() && View() == Flush(old(View()), clientSent, serverSent)
    {
      if storeFailed { phase := Terminal(15); return; }
      FlushClientHold(clientSent);
      if phase == Left { FlushServerHold(serverSent); }
    }

    method Verdict(t: Transition) returns (complete: bool)
      requires Valid()
      ensures complete <==> Complete(View(), t)
    {
      var unresolved := (heldClient.Some? && heldClient.value.reorder) || (heldServer.Some? && heldServer.value.reorder);
      var balanced := counters.dropped <= counters.observed
        && counters.emitted == counters.observed - counters.dropped - counters.auxiliary + counters.duplicated
        && perturbations == counters.dropped + counters.duplicated + counters.delayed;
      var a, b := generations[0], generations[1];
      var reconnected := cfg.scenario != Reconnect
        || (prepared && completed && quiet && t.prepared && t.shutdown && distinct && current == 1
            && t.bLearned && t.bConnect && t.bAccept && GenerationComplete(a) && GenerationComplete(b)
            && a.last.Some? && b.first.Some? && a.last.value < b.first.value);
      var permitted := if cfg.functional then auxiliaryCount else 0;
      complete := limitReached.None? && !wrongSource && (!cfg.functional || stopRequested) && client.Some?
        && counters.clientPackets != 0 && counters.serverPackets != 0
        && counters.ignoredWrongSource == permitted && counters.auxiliary == permitted
        && balanced && perturbations == ExpectedPerturbations(cfg.scenario) && reconnected
        && (cfg.scenario != ReorderServerRuntime || (reorderCompleted && !unresolved));
    }
  }
}
