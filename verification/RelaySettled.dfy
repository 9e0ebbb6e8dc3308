/** What holds between datagrams as long as no send has failed: every entry has been emitted as
    often as its action asks, exactly the held entries sit in a slot, and the tallies balance. */
module RelaySettled {
  import opened Common
  import opened RelayTypes
  import opened RelayCore
  import opened RelayLedger

  predicate IsHold(a: Action) { a == HoldForDelay || a == HoldForReorder }

  /** How many emissions an entry must have once its datagram has been dealt with. */
  function Due(e: Entry): nat {
    match e.action
    case Forward => 1
    case Drop => 0
    case Duplicate => 2
    case HoldForDelay | HoldForReorder => if e.holdState == Held then 0 else 1
    case AuxiliaryObservation => 0
  }

  ghost predicate EntrySettled(e: Entry) {
    && |e.emitted| == Due(e)
    && (IsHold(e.action) <==> e.holdState != NotHeld)
    && (e.action == Duplicate ==> e.emitted[1] == e.emitted[0] + 1)
  }

  ghost predicate Untouched(e: Entry) {
    e.emitted == [] && e.holdState == NotHeld
  }

  /** Exactly the entry that a slot refers to is in state `Held`. */
  ghost predicate SlotHolds(c: Core, d: Direction) {
    && (Slot(c, d).Some? ==>
          var i := Slot(c, d).value.index;
          i < |c.journal| && c.journal[i].direction == d && c.journal[i].holdState == Held)
    && (forall i :: 0 <= i < |c.journal| && c.journal[i].direction == d && c.journal[i].holdState == Held ==>
          Slot(c, d).Some? && Slot(c, d).value.index == i)
  }

  function InSlots(c: Core): nat {
    (if c.heldClient.Some? then 1 else 0) + (if c.heldServer.Some? then 1 else 0)
  }

  /** The identity the relay recomputes at the end, with `pending` datagrams recorded but not yet
      processed and the held ones still owed. */
  ghost predicate Balanced(c: Core, pending: nat) {
    && c.counters.emitted + c.counters.dropped + c.counters.auxiliary + InSlots(c) + pending
       == c.counters.observed + c.counters.duplicated
    && c.perturbations == c.counters.dropped + c.counters.duplicated + c.counters.delayed
    && c.counters.duplicated + c.counters.delayed + c.counters.dropped + c.counters.auxiliary + pending
       <= c.counters.observed
  }

  /** The first `n` entries are settled; the rest have only been recorded. */
  ghost predicate SettledUpTo(c: Core, n: nat) {
    && n <= |c.journal|
    && (forall i :: 0 <= i < n ==> EntrySettled(c.journal[i]))
    && (forall i :: n <= i < |c.journal| ==> Untouched(c.journal[i]))
    && SlotHolds(c, ClientToServer) && SlotHolds(c, ServerToClient)
    && Balanced(c, |c.journal| - n)
  }

  ghost predicate Settled(c: Core) {
    Ledger(c) && SettledUpTo(c, |c.journal|)
  }

  /** The newest entry is accepted, recorded, and not processed yet. */
  ghost predicate PendingLast(c: Core) {
    && Ledger(c) && |c.journal| > 0 && SettledUpTo(c, |c.journal| - 1)
    && !c.journal[|c.journal| - 1].wrongSource
  }

  lemma EmptyIsSettled(c: Core)
    requires c == EMPTY_CORE
    ensures Settled(c)
  {
    assert c.counters == ZERO_COUNTERS;
    NothingIsSettled(c);
  }

  lemma NothingIsSettled(c: Core)
    requires c.journal == [] && c.wire == [] && c.heldClient.None? && c.heldServer.None?
    requires c.counters == ZERO_COUNTERS && c.perturbations == 0
    ensures Settled(c)
  {
    assert Shape(c) && WireMatches(c) by { hide Balanced; }
    hide Shape, WireMatches;
  }

  lemma RecordAccepted(c: Core, o: Observation, policy: Action)
    requires Settled(c) && !o.wrongSource && !o.auxiliary && policy != AuxiliaryObservation
    ensures PendingLast(Record(c, o, policy))
  {
    RecordKeepsLedger(c, o, policy);
    RecordUpTo(c, o, policy);
  }

  lemma RecordRejected(c: Core, o: Observation)
    requires Settled(c) && o.wrongSource
    ensures Settled(Record(c, o, Drop))
  {
    RecordKeepsLedger(c, o, Drop);
    RecordUpTo(c, o, Drop);
  }

  lemma RecordSlots(c: Core, o: Observation, policy: Action, d: Direction)
    requires SlotHolds(c, d)
    ensures SlotHolds(Record(c, o, policy), d)
  {
  }

  lemma RecordUpTo(c: Core, o: Observation, policy: Action)
    requires SettledUpTo(c, |c.journal|) && c.counters.observed == |c.journal|
    requires o.auxiliary ==> o.wrongSource
    ensures var c' := Record(c, o, policy);
            SettledUpTo(c', if o.wrongSource then |c'.journal| else |c.journal|)
  {
    hide SlotHolds;
    RecordSlots(c, o, policy, ClientToServer);
    RecordSlots(c, o, policy, ServerToClient);
  }

  // In each of the following, the last entry `p.index` is the only one not settled yet.

  ghost predicate LastPending(c: Core, p: Packet) {
    && |c.journal| > 0 && p.index == |c.journal| - 1
    && SettledUpTo(c, p.index)
    && c.counters.emitted == |c.wire|
  }

  lemma ForwardUpTo(c: Core, d: Direction, p: Packet)
    requires LastPending(c, p) && c.journal[p.index].action == Forward
    ensures SettledUpTo(Emit(c, d, p), |c.journal|)
  {
  }

  lemma DuplicateUpTo(c: Core, d: Direction, p: Packet)
    requires LastPending(c, p) && c.journal[p.index].action == Duplicate
    ensures SettledUpTo(CountDuplicate(Emit(Emit(c, d, p), d, p)), |c.journal|)
  {
    var c' := CountDuplicate(Emit(Emit(c, d, p), d, p));
    var e := c'.journal[p.index].emitted;
    assert e == [c.counters.emitted, c.counters.emitted + 1];
    assert forall i :: 0 <= i < p.index ==> c'.journal[i] == c.journal[i];
    forall d ensures SlotHolds(c', d) {
      assert SlotHolds(c, d);
    }
  }

  lemma HoldSlots(c: Core, d: Direction, p: Packet, reorder: bool, e: Direction)
    requires p.index < |c.journal| && c.journal[p.index].direction == d
    requires SlotHolds(c, e) && Slot(c, d).None? && SlotHolds(c, d)
    ensures SlotHolds(HoldBack(c, d, p, reorder), e)
  {
  }

  lemma HoldUpTo(c: Core, d: Direction, p: Packet, reorder: bool)
    requires LastPending(c, p) && c.journal[p.index].direction == d && Slot(c, d).None?
    requires IsHold(c.journal[p.index].action)
    ensures SettledUpTo(HoldBack(c, d, p, reorder), |c.journal|)
  {
    HoldSlots(c, d, p, reorder, ClientToServer);
    HoldSlots(c, d, p, reorder, ServerToClient);
    hide SlotHolds;
    assert forall i :: 0 <= i < p.index ==> HoldBack(c, d, p, reorder).journal[i] == c.journal[i];
  }

  lemma TwoEntries(c: Core, d: Direction, a: Packet, b: Packet, sent1: bool, sent2: bool)
    requires a.index < |c.journal| && b.index < |c.journal| && a.index != b.index
    requires c.journal[a.index].emitted == c.journal[b.index].emitted == []
    requires TryEmitTwo(c, d, a, b, sent1, sent2).ok
    ensures var c' := TryEmitTwo(c, d, a, b, sent1, sent2).core;
            var n, j, j' := c.counters.emitted, c.journal, c'.journal;
            && j' == j[a.index := j[a.index].(emitted := [n], delivered := true)]
                      [b.index := j[b.index].(emitted := [n + 1], delivered := true)]
            && c'.heldClient == c.heldClient && c'.heldServer == c.heldServer
            && c'.counters == c.counters.(emitted := n + 2, emittedBytes := c'.counters.emittedBytes)
            && c'.perturbations == c.perturbations && c'.reorderCompleted == c.reorderCompleted
  {
    var n := c.counters.emitted;
    assert c.journal[a.index].emitted + [n] == [n] && c.journal[b.index].emitted + [n + 1] == [n + 1];
  }

  /** What a successful release does to the journal, entry by entry. */
  lemma ReleaseEntries(c: Core, d: Direction, p: Packet, sent1: bool, sent2: bool)
    requires p.index < |c.journal| && SlotHolds(c, d) && Slot(c, d).Some?
    requires c.journal[p.index].holdState == NotHeld && c.journal[p.index].emitted == []
    requires c.journal[Slot(c, d).value.index].emitted == []
    requires ReleaseHeld(c, d, p, sent1, sent2).ok
    ensures var h, c' := Slot(c, d).value, ReleaseHeld(c, d, p, sent1, sent2).core;
            var n, j, j' := c.counters.emitted, c.journal, c'.journal;
            && |j'| == |j| && h.index != p.index
            && j'[h.index] == j[h.index].(holdState := Released, delivered := true,
                                          emitted := [if h.reorder then n + 1 else n])
            && j'[p.index] == j[p.index].(delivered := true, emitted := [if h.reorder then n else n + 1])
            && (forall i :: 0 <= i < |j| && i != h.index && i != p.index ==> j'[i] == j[i])
            && Slot(c', d).None? && Slot(c', Other(d)) == Slot(c, Other(d))
            && c'.counters == c.counters.(emitted := n + 2, emittedBytes := c'.counters.emittedBytes)
            && c'.perturbations == c.perturbations
            && c'.reorderCompleted == (c.reorderCompleted || h.reorder)
  {
    var h := Slot(c, d).value;
    var earlier := Packet(h.destination, h.payload, h.index);
    if h.reorder {
      TwoEntries(c, d, p, earlier, sent1, sent2);
    } else {
      TwoEntries(c, d, earlier, p, sent1, sent2);
    }
  }

  lemma ReleaseSlots(c: Core, d: Direction, p: Packet, sent1: bool, sent2: bool, e: Direction)
    requires p.index < |c.journal| && SlotHolds(c, d) && SlotHolds(c, e) && Slot(c, d).Some?
    requires c.journal[p.index].holdState == NotHeld && c.journal[p.index].emitted == []
    requires c.journal[Slot(c, d).value.index].emitted == []
    requires ReleaseHeld(c, d, p, sent1, sent2).ok
    ensures SlotHolds(ReleaseHeld(c, d, p, sent1, sent2).core, e)
  {
    hide ReleaseHeld;
    ReleaseEntries(c, d, p, sent1, sent2);
  }

  lemma ReleaseBalance(c: Core, d: Direction, p: Packet, sent1: bool, sent2: bool)
    requires p.index < |c.journal| && SlotHolds(c, d) && Slot(c, d).Some? && Balanced(c, 1)
    requires c.journal[p.index].holdState == NotHeld && c.journal[p.index].emitted == []
    requires c.journal[Slot(c, d).value.index].emitted == []
    requires ReleaseHeld(c, d, p, sent1, sent2).ok
    ensures Balanced(ReleaseHeld(c, d, p, sent1, sent2).core, 0)
  {
    hide ReleaseHeld;
    ReleaseEntries(c, d, p, sent1, sent2);
  }

  lemma ReleaseSettlesEntries(c: Core, d: Direction, p: Packet, sent1: bool, sent2: bool)
    requires |c.journal| > 0 && p.index == |c.journal| - 1 && SlotHolds(c, d) && SlotMatches(c, d) && Slot(c, d).Some?
    requires forall i :: 0 <= i < p.index ==> EntrySettled(c.journal[i])
    requires Untouched(c.journal[p.index]) && c.journal[p.index].action == Forward
    requires ReleaseHeld(c, d, p, sent1, sent2).ok
    ensures var j' := ReleaseHeld(c, d, p, sent1, sent2).core.journal;
            |j'| == |c.journal| && forall i :: 0 <= i < |j'| ==> EntrySettled(j'[i])
  {
    assert EntrySettled(c.journal[Slot(c, d).value.index]);
    hide ReleaseHeld;
    ReleaseEntries(c, d, p, sent1, sent2);
  }

  lemma ReleaseUpTo(c: Core, d: Direction, p: Packet, sent1: bool, sent2: bool)
    requires LastPending(c, p) && SlotMatches(c, d) && Slot(c, d).Some?
    requires c.journal[p.index].action == Forward
    requires ReleaseHeld(c, d, p, sent1, sent2).ok
    ensures SettledUpTo(ReleaseHeld(c, d, p, sent1, sent2).core, |c.journal|)
  {
    assert SlotHolds(c, d);
    assert EntrySettled(c.journal[Slot(c, d).value.index]);
    hide ReleaseHeld, SlotHolds, Balanced, EntrySettled, SlotMatches;
    ReleaseSlots(c, d, p, sent1, sent2, ClientToServer);
    ReleaseSlots(c, d, p, sent1, sent2, ServerToClient);
    ReleaseBalance(c, d, p, sent1, sent2);
    ReleaseSettlesEntries(c, d, p, sent1, sent2);
  }

  /** A successful step leads from settled to settled, for every action and every input. */
  lemma ProcessSettles(c: Core, d: Direction, p: Packet, action: Action, sent1: bool, sent2: bool)
    requires PendingLast(c) && Belongs(c, d, p) && p.index == |c.journal| - 1
    requires action == c.journal[p.index].action
    requires Process(c, d, p, action, sent1, sent2).ok
    ensures Settled(Process(c, d, p, action, sent1, sent2).core)
  {
    ProcessKeepsLedger(c, d, p, action, sent1, sent2);
    assert EntryShape(c.journal, p.index);
    ProcessUpTo(c, d, p, action, sent1, sent2);
  }

  lemma ProcessUpTo(c: Core, d: Direction, p: Packet, action: Action, sent1: bool, sent2: bool)
    requires LastPending(c, p) && SlotMatches(c, d)
    requires action == c.journal[p.index].action != AuxiliaryObservation && c.journal[p.index].direction == d
    requires Process(c, d, p, action, sent1, sent2).ok
    ensures SettledUpTo(Process(c, d, p, action, sent1, sent2).core, |c.journal|)
  {
    if Slot(c, d).Some? && action == Forward {
      ReleaseUpTo(c, d, p, sent1, sent2);
    } else {
      match action
      case Forward => ForwardUpTo(c, d, p);
      case Drop =>
      case Duplicate => DuplicateUpTo(c, d, p);
      case HoldForDelay | HoldForReorder => HoldUpTo(c, d, p, action == HoldForReorder);
    }
  }

  /** A flush releases a lone held datagram; its slot is left as it was, so the tally of what is
      still owed drops by one. */
  ghost predicate Flushed(c: Core, client: bool, server: bool) {
    && (forall i :: 0 <= i < |c.journal| ==> EntrySettled(c.journal[i]))
    && (if client then forall i :: 0 <= i < |c.journal| && c.journal[i].direction == ClientToServer ==> c.journal[i].holdState != Held
        else SlotHolds(c, ClientToServer))
    && (if server then forall i :: 0 <= i < |c.journal| && c.journal[i].direction == ServerToClient ==> c.journal[i].holdState != Held
        else SlotHolds(c, ServerToClient))
    && c.counters.emitted + c.counters.dropped + c.counters.auxiliary
       + (if c.heldClient.Some? && !client then 1 else 0) + (if c.heldServer.Some? && !server then 1 else 0)
       == c.counters.observed + c.counters.duplicated
    && c.perturbations == c.counters.dropped + c.counters.duplicated + c.counters.delayed
    && c.counters.dropped + c.counters.auxiliary <= c.counters.observed
    && c.counters.duplicated <= c.counters.observed
  }

  lemma SettledIsUnflushed(c: Core)
    requires Settled(c)
    ensures Flushed(c, c.heldClient.None?, c.heldServer.None?)
  {
  }

  lemma FlushEntries(c: Core, d: Direction, destination: Address, sent: bool)
    requires SlotMatches(c, d) && SlotHolds(c, d) && Slot(c, d).Some?
    requires forall i :: 0 <= i < |c.journal| ==> EntrySettled(c.journal[i])
    requires FlushSlot(c, d, destination, sent).ok
    ensures var h, j, j' := Slot(c, d).value.index, c.journal, FlushSlot(c, d, destination, sent).core.journal;
            && |j'| == |j|
            && j'[h] == j[h].(holdState := if Slot(c, d).value.reorder then Unresolved else Released,
                              emitted := [c.counters.emitted], delivered := true)
            && forall i :: 0 <= i < |j| && i != h ==> j'[i] == j[i]
  {
    assert EntrySettled(c.journal[Slot(c, d).value.index]);
  }

  lemma FlushClient(c: Core, destination: Address, sent: bool, server: bool)
    requires Flushed(c, false, server) && c.heldClient.Some? && SlotMatches(c, ClientToServer)
    requires FlushSlot(c, ClientToServer, destination, sent).ok
    ensures Flushed(FlushSlot(c, ClientToServer, destination, sent).core, true, server)
  {
    FlushEntries(c, ClientToServer, destination, sent);
  }

  lemma FlushServer(c: Core, destination: Address, sent: bool, client: bool)
    requires Flushed(c, client, false) && c.heldServer.Some? && SlotMatches(c, ServerToClient)
    requires FlushSlot(c, ServerToClient, destination, sent).ok
    ensures Flushed(FlushSlot(c, ServerToClient, destination, sent).core, client, true)
  {
    FlushEntries(c, ServerToClient, destination, sent);
  }
}
