/** What holds at every exit of the relay, failed sends included: the journal's shape and the
    exact correspondence between emission ordinals and the wire. */
module RelayLedger {
  import opened Common
  import opened RelayTypes
  import opened RelayCore

  // ---- the part of an entry that never changes once it is recorded ----

  ghost function Face(e: Entry): Entry {
    e.(holdState := NotHeld, emitted := [], delivered := false)
  }

  ghost predicate SameFaces(j: seq<Entry>, k: seq<Entry>) {
    |j| == |k| && forall i :: 0 <= i < |j| ==> Face(j[i]) == Face(k[i])
  }

  ghost function CountDirection(j: seq<Entry>, d: Direction): nat {
    if j == [] then 0
    else CountDirection(j[..|j| - 1], d) + if j[|j| - 1].direction == d then 1 else 0
  }

  ghost function CountBytes(j: seq<Entry>): nat {
    if j == [] then 0 else CountBytes(j[..|j| - 1]) + |j[|j| - 1].payload|
  }

  ghost function CountWrong(j: seq<Entry>): nat {
    if j == [] then 0 else CountWrong(j[..|j| - 1]) + if j[|j| - 1].wrongSource then 1 else 0
  }

  ghost function CountAuxiliary(j: seq<Entry>): nat {
    if j == [] then 0
    else CountAuxiliary(j[..|j| - 1]) + if j[|j| - 1].action == AuxiliaryObservation then 1 else 0
  }

  lemma {:induction false} CountsDependOnFaces(j: seq<Entry>, k: seq<Entry>)
    requires SameFaces(j, k)
    ensures forall d :: CountDirection(j, d) == CountDirection(k, d)
    ensures CountBytes(j) == CountBytes(k)
    ensures CountWrong(j) == CountWrong(k)
    ensures CountAuxiliary(j) == CountAuxiliary(k)
  {
    if j == [] {
    } else {
      var n := |j| - 1;
      assert Face(j[n]) == Face(k[n]);
      assert forall i :: 0 <= i < n ==> j[..n][i] == j[i] && k[..n][i] == k[i];
      CountsDependOnFaces(j[..n], k[..n]);
    }
  }

  // ---- journal shape ----

  ghost predicate EntryShape(j: seq<Entry>, i: nat)
    requires i < |j|
  {
    var e := j[i];
    && e.observedOrdinal == i
    && e.directionOrdinal == CountDirection(j[..i + 1], e.direction)
    && e.destinationRole == (if e.direction == ClientToServer then ResearchServer else ResearchClient)
    && e.sourceRole == (if e.wrongSource then UnexpectedSource
                        else if e.direction == ClientToServer then ResearchClient else ResearchServer)
    && (e.wrongSource ==> e.action == Drop || e.action == AuxiliaryObservation)
    && (e.action == AuxiliaryObservation ==> e.wrongSource)
  }

  /** Observed ordinals are 0,1,2,..., per-direction ordinals 1,2,3,..., and the counters count. */
  ghost predicate Shape(c: Core) {
    && (forall i :: 0 <= i < |c.journal| ==> EntryShape(c.journal, i))
    && c.counters.observed == |c.journal|
    && c.counters.clientPackets == CountDirection(c.journal, ClientToServer)
    && c.counters.serverPackets == CountDirection(c.journal, ServerToClient)
    && c.counters.rawBytes == CountBytes(c.journal)
    && c.counters.ignoredWrongSource == CountWrong(c.journal)
    && c.counters.auxiliary == CountAuxiliary(c.journal)
  }

  // ---- emission ordinals ----

  ghost predicate Increasing(s: seq<nat>) {
    forall a, b :: 0 <= a < b < |s| ==> s[a] < s[b]
  }

  /** Every ordinal listed by entry `e` at position `i` is a wire position carrying entry `i`. */
  ghost predicate EntryWire(e: Entry, i: nat, wire: seq<Emission>) {
    && (forall a :: 0 <= a < |e.emitted| ==> e.emitted[a] < |wire| && wire[e.emitted[a]].index == i)
    && Increasing(e.emitted)
    && (e.delivered <==> e.emitted != [])
    && (e.wrongSource ==> e.emitted == [])
  }

  /** Wire position `k` is listed by the entry it carries, and carries its bytes unaltered. */
  ghost predicate OnWire(j: seq<Entry>, wire: seq<Emission>, k: nat)
    requires k < |wire|
  {
    var w := wire[k];
    && w.index < |j|
    && k in j[w.index].emitted
    && w.payload == j[w.index].payload
    && w.direction == j[w.index].direction
  }

  ghost function WireBytes(w: seq<Emission>): nat {
    if w == [] then 0 else WireBytes(w[..|w| - 1]) + |w[|w| - 1].payload|
  }

  /** The emitted lists partition 0..emitted-1: ordinal k belongs to exactly the entry whose
      datagram is the k-th one on the wire. The two emission counters count the wire. */
  ghost predicate WireMatches(c: Core) {
    && c.counters.emitted == |c.wire|
    && c.counters.emittedBytes == WireBytes(c.wire)
    && (forall k :: 0 <= k < |c.wire| ==> OnWire(c.journal, c.wire, k))
    && (forall i :: 0 <= i < |c.journal| ==> EntryWire(c.journal[i], i, c.wire))
  }

  /** A hold slot remembers an accepted entry of its own direction, with the same payload. */
  ghost predicate SlotMatches(c: Core, d: Direction) {
    Slot(c, d).Some? ==>
      var h := Slot(c, d).value;
      && h.index < |c.journal|
      && c.journal[h.index].payload == h.payload
      && c.journal[h.index].direction == d
      && !c.journal[h.index].wrongSource
      && c.journal[h.index].action == (if h.reorder then HoldForReorder else HoldForDelay)
  }

  ghost predicate Ledger(c: Core) {
    Shape(c) && WireMatches(c) && SlotMatches(c, ClientToServer) && SlotMatches(c, ServerToClient)
  }

  // ---- preservation ----

  lemma ShapeDependsOnFaces(c: Core, c': Core)
    requires Shape(c) && SameFaces(c.journal, c'.journal)
    requires c'.counters.observed == c.counters.observed
    requires c'.counters.clientPackets == c.counters.clientPackets
    requires c'.counters.serverPackets == c.counters.serverPackets
    requires c'.counters.rawBytes == c.counters.rawBytes
    requires c'.counters.ignoredWrongSource == c.counters.ignoredWrongSource
    requires c'.counters.auxiliary == c.counters.auxiliary
    ensures Shape(c')
  {
    CountsDependOnFaces(c.journal, c'.journal);
    forall i | 0 <= i < |c'.journal| ensures EntryShape(c'.journal, i) {
      assert EntryShape(c.journal, i);
      assert Face(c.journal[i]) == Face(c'.journal[i]);
      assert forall a :: 0 <= a <= i ==> c.journal[..i + 1][a] == c.journal[a] && c'.journal[..i + 1][a] == c'.journal[a];
      CountsDependOnFaces(c.journal[..i + 1], c'.journal[..i + 1]);
    }
  }

  lemma RecordKeepsShape(c: Core, o: Observation, policy: Action)
    requires Shape(c)
    requires o.auxiliary ==> o.wrongSource
    requires policy != AuxiliaryObservation
    ensures Shape(Record(c, o, policy))
  {
    var c', n := Record(c, o, policy), |c.journal|;
    assert c'.journal[..n] == c.journal;
    assert c'.journal[..n + 1] == c'.journal;
    forall i | 0 <= i < n + 1 ensures EntryShape(c'.journal, i) {
      if i < n {
        assert EntryShape(c.journal, i);
        assert c'.journal[..i + 1] == c.journal[..i + 1];
      }
    }
  }

  lemma RecordKeepsWire(c: Core, o: Observation, policy: Action)
    requires WireMatches(c)
    ensures WireMatches(Record(c, o, policy))
  {
    var c' := Record(c, o, policy);
    forall k | 0 <= k < |c.wire| ensures OnWire(c'.journal, c'.wire, k) {
      assert OnWire(c.journal, c.wire, k);
    }
  }

  lemma RecordKeepsLedger(c: Core, o: Observation, policy: Action)
    requires Ledger(c)
    requires o.auxiliary ==> o.wrongSource
    requires policy != AuxiliaryObservation
    ensures Ledger(Record(c, o, policy))
    ensures Record(c, o, policy).journal[..|c.journal|] == c.journal
  {
    hide Shape, WireMatches;
    RecordKeepsShape(c, o, policy);
    RecordKeepsWire(c, o, policy);
  }

  /** The datagram of an accepted entry of this direction, unaltered. */
  ghost predicate Belongs(c: Core, d: Direction, p: Packet) {
    && p.index < |c.journal|
    && p.payload == c.journal[p.index].payload
    && d == c.journal[p.index].direction
    && !c.journal[p.index].wrongSource
  }

  lemma EmitKeepsWire(c: Core, d: Direction, p: Packet)
    requires WireMatches(c) && Belongs(c, d, p)
    ensures WireMatches(Emit(c, d, p))
  {
    var c', index := Emit(c, d, p), p.index;
    var n := |c.wire|;
    assert c'.wire[..n] == c.wire;
    assert c'.journal[index].emitted[|c.journal[index].emitted|] == n;
    forall k | 0 <= k < n + 1 ensures OnWire(c'.journal, c'.wire, k) {
      if k < n {
        assert OnWire(c.journal, c.wire, k);
        var e := c.journal[c.wire[k].index].emitted;
        var a :| 0 <= a < |e| && e[a] == k;
        assert c'.journal[c.wire[k].index].emitted[a] == k;
      }
    }
    forall i | 0 <= i < |c.journal| ensures EntryWire(c'.journal[i], i, c'.wire) {
      assert EntryWire(c.journal[i], i, c.wire);
    }
  }

  lemma EmitKeepsLedger(c: Core, d: Direction, p: Packet)
    requires Ledger(c) && Belongs(c, d, p)
    ensures Ledger(Emit(c, d, p)) && SameFaces(c.journal, Emit(c, d, p).journal)
  {
    hide Shape, WireMatches;
    ShapeDependsOnFaces(c, Emit(c, d, p));
    EmitKeepsWire(c, d, p);
  }

  lemma SetHoldKeepsWire(c: Core, index: nat, h: HoldState)
    requires WireMatches(c) && index < |c.journal|
    ensures WireMatches(SetHold(c, index, h))
  {
    var c' := SetHold(c, index, h);
    forall k | 0 <= k < |c.wire| ensures OnWire(c'.journal, c'.wire, k) {
      assert OnWire(c.journal, c.wire, k);
    }
    forall i | 0 <= i < |c.journal| ensures EntryWire(c'.journal[i], i, c'.wire) {
      assert EntryWire(c.journal[i], i, c.wire);
    }
  }

  lemma SetHoldKeepsLedger(c: Core, index: nat, h: HoldState)
    requires Ledger(c) && index < |c.journal|
    ensures Ledger(SetHold(c, index, h)) && SameFaces(c.journal, SetHold(c, index, h).journal)
  {
    hide Shape, WireMatches;
    ShapeDependsOnFaces(c, SetHold(c, index, h));
    SetHoldKeepsWire(c, index, h);
  }

  lemma TryEmitTwoKeepsLedger(c: Core, d: Direction, a: Packet, b: Packet, sent1: bool, sent2: bool)
    requires Ledger(c) && Belongs(c, d, a) && Belongs(c, d, b)
    ensures var r := TryEmitTwo(c, d, a, b, sent1, sent2).core;
            Ledger(r) && SameFaces(c.journal, r.journal)
  {
    hide Shape, WireMatches;
    if EmitSucceeds(c, a, sent1) {
      EmitKeepsLedger(c, d, a);
      var c1 := Emit(c, d, a);
      assert Face(c.journal[b.index]) == Face(c1.journal[b.index]);
      if EmitSucceeds(c1, b, sent2) {
        EmitKeepsLedger(c1, d, b);
      }
    }
  }

  /** The tallies of perturbations and an emptied slot are outside the ledger proper. */
  lemma LedgerIgnoresTallies(c: Core, c': Core)
    requires Ledger(c)
    requires c'.journal == c.journal && c'.wire == c.wire
    requires c'.counters == c.counters.(dropped := c'.counters.dropped, duplicated := c'.counters.duplicated,
                                        delayed := c'.counters.delayed)
    requires SlotMatches(c', ClientToServer) && SlotMatches(c', ServerToClient)
    ensures Ledger(c')
  {
  }

  lemma ReleaseKeepsLedger(c: Core, d: Direction, p: Packet, sent1: bool, sent2: bool)
    requires Ledger(c) && Belongs(c, d, p) && Slot(c, d).Some?
    ensures var r := ReleaseHeld(c, d, p, sent1, sent2).core;
            Ledger(r) && SameFaces(c.journal, r.journal)
  {
    hide Shape, WireMatches, TryEmitTwo;
    var h := Slot(c, d).value;
    var earlier := Packet(h.destination, h.payload, h.index);
    if h.reorder {
      TryEmitTwoKeepsLedger(c, d, p, earlier, sent1, sent2);
      if TryEmitTwo(c, d, p, earlier, sent1, sent2).ok {
        FreeKeepsLedger(TryEmitTwo(c, d, p, earlier, sent1, sent2).core, d, h);
      }
    } else {
      TryEmitTwoKeepsLedger(c, d, earlier, p, sent1, sent2);
      if TryEmitTwo(c, d, earlier, p, sent1, sent2).ok {
        FreeKeepsLedger(TryEmitTwo(c, d, earlier, p, sent1, sent2).core, d, h);
      }
    }
  }

  lemma FreeKeepsLedger(c: Core, d: Direction, h: HeldDatagram)
    requires Ledger(c) && h.index < |c.journal|
    ensures var r := SetHold(c, h.index, Released);
            var freed := WithSlot(r.(reorderCompleted := r.reorderCompleted || h.reorder), d, None);
            Ledger(freed) && SameFaces(c.journal, freed.journal)
  {
    hide Shape, WireMatches;
    SetHoldKeepsLedger(c, h.index, Released);
    var r := SetHold(c, h.index, Released);
    LedgerIgnoresTallies(r, WithSlot(r.(reorderCompleted := r.reorderCompleted || h.reorder), d, None));
  }

  lemma HoldBackKeepsLedger(c: Core, d: Direction, p: Packet, reorder: bool)
    requires Ledger(c) && Belongs(c, d, p)
    requires c.journal[p.index].action == if reorder then HoldForReorder else HoldForDelay
    ensures var r := HoldBack(c, d, p, reorder);
            Ledger(r) && SameFaces(c.journal, r.journal)
  {
    hide Shape, WireMatches;
    SetHoldKeepsLedger(c, p.index, Held);
    LedgerIgnoresTallies(SetHold(c, p.index, Held), HoldBack(c, d, p, reorder));
  }

  /** Processing keeps the ledger whether it succeeds or fails half way, and never alters what
      was recorded about any observation. */
  lemma ProcessKeepsLedger(c: Core, d: Direction, p: Packet, action: Action, sent1: bool, sent2: bool)
    requires Ledger(c) && Belongs(c, d, p) && action == c.journal[p.index].action
    ensures var r := Process(c, d, p, action, sent1, sent2).core;
            Ledger(r) && SameFaces(c.journal, r.journal)
  {
    hide Shape, WireMatches;
    if Slot(c, d).Some? && action == Forward {
      ReleaseKeepsLedger(c, d, p, sent1, sent2);
    } else {
      match action
      case Forward =>
        if EmitSucceeds(c, p, sent1) { EmitKeepsLedger(c, d, p); }
      case Drop =>
        LedgerIgnoresTallies(c, CountDrop(c));
      case Duplicate =>
        TryEmitTwoKeepsLedger(c, d, p, p, sent1, sent2);
        var r := TryEmitTwo(c, d, p, p, sent1, sent2).core;
        LedgerIgnoresTallies(r, CountDuplicate(r));
      case HoldForDelay | HoldForReorder =>
        if Slot(c, d).None? { HoldBackKeepsLedger(c, d, p, action == HoldForReorder); }
      case AuxiliaryObservation =>
    }
  }

  lemma FlushKeepsFaces(c: Core, d: Direction, destination: Address, sent: bool)
    requires Slot(c, d).Some?
    ensures SameFaces(c.journal, FlushSlot(c, d, destination, sent).core.journal)
  {
  }

  lemma FlushKeepsLedger(c: Core, d: Direction, destination: Address, sent: bool)
    requires Ledger(c) && Slot(c, d).Some?
    ensures var r := FlushSlot(c, d, destination, sent).core;
            Ledger(r) && SameFaces(c.journal, r.journal)
  {
    hide Shape, WireMatches;
    var h := Slot(c, d).value;
    var marked := SetHold(c, h.index, if h.reorder then Unresolved else Released);
    SetHoldKeepsLedger(c, h.index, if h.reorder then Unresolved else Released);
    assert Face(c.journal[h.index]) == Face(marked.journal[h.index]);
    var p := Packet(destination, h.payload, h.index);
    if EmitSucceeds(marked, p, sent) {
      EmitKeepsLedger(marked, d, p);
    }
  }

  lemma TakeKeepsLedger(c: Core, s: Step)
    requires Ledger(c) && ProperStep(s)
    ensures Ledger(Take(c, s).core)
  {
    match s
    case Reject(o) =>
      RecordKeepsLedger(c, o, Drop);
    case Accept(o, policy, destination, sent1, sent2) =>
      RecordKeepsLedger(c, o, policy);
      ProcessKeepsLedger(Record(c, o, policy), o.direction, Packet(destination, o.payload, |c.journal|), policy, sent1, sent2);
  }
}
