/** When a capture is judged complete, in terms of what its journal shows. */
module RelayCompletion {
  import opened Common
  import opened RelayTypes
  import opened RelayCore
  import opened RelayLedger
  import opened RelaySettled
  import opened RelayTallies
  import opened RelayOrder
  import opened RelayRuns
  import opened RelayMachine
  import opened RelayGenerations
  import opened RelayBudget
  import opened RelayFinal
  import opened RelayInvariant
  import opened RelaySafety
  import opened RelayVerdict
  import opened RelayPublication

  // ---- a complete generation ----

  /** The client asked for a connection, the server accepted it, and then sent game data. */
  ghost predicate Connected(j: seq<Entry>, owners: Owners, g: nat) {
    exists i :: SequencedAt(j, owners, g, i) && AcceptedBefore(j, owners, g, i)
  }

  lemma AcceptedLater(j: seq<Entry>, owners: Owners, g: nat, k: int, n: int)
    requires AcceptedBefore(j, owners, g, k) && k <= n
    ensures AcceptedBefore(j, owners, g, n)
  {
    var c, a :| 0 <= c < a < k && ConnectAt(j, owners, g, c) && AcceptAt(j, owners, g, a);
    assert 0 <= c < a < n;
  }

  lemma NotEmpty(s: set<int>, i: int)
    requires i in s
    ensures |s| > 0
  {
    assert s == (s - {i}) + {i};
  }

  /** A generation's record is complete exactly when its datagrams show the whole handshake. */
  lemma GenerationCompleteExactly(j: seq<Entry>, owners: Owners, g: nat)
    requires |owners| == |j|
    ensures GenerationComplete(Summary(j, owners, g)) <==> Connected(j, owners, g)
  {
    SummaryRange(j, owners, g);
    SummaryCounts(j, owners, g);
    SummaryHandshake(j, owners, g);
    var s := Summary(j, owners, g);
    hide Summary;
    if GenerationComplete(s) {
      var i := s.firstSequenced.value;
      assert SequencedAt(j, owners, g, i) && AcceptedBefore(j, owners, g, i);
    }
    if Connected(j, owners, g) { ConnectedIsComplete(j, owners, g, s); }
  }

  lemma ConnectedIsComplete(j: seq<Entry>, owners: Owners, g: nat, s: Generation)
    requires |owners| == |j| && Connected(j, owners, g)
    requires RangeFacts(j, owners, g, s) && CountFacts(j, owners, g, s) && HandshakeFacts(j, owners, g, s)
    ensures GenerationComplete(s)
  {
    var i :| SequencedAt(j, owners, g, i) && AcceptedBefore(j, owners, g, i);
    var c, a :| 0 <= c < a < i && ConnectAt(j, owners, g, c) && AcceptAt(j, owners, g, a);
    AcceptedLater(j, owners, g, i, |j|);
    ConnectIsConnectionless(j[c].payload);
    assert Owned(owners, g, i) && Owned(owners, g, c) && Owned(owners, g, a);
    hide IsConnect, IsAccept, IsConnectionless, AcceptedBefore;
    assert SeenAt(j, owners, g, ClientToServer, c) && SeenAt(j, owners, g, ServerToClient, a);
    NotEmpty(OwnedFrom(j, owners, g, ClientToServer), c);
    NotEmpty(OwnedFrom(j, owners, g, ServerToClient), a);
    NotEmpty(OwnedConnectionless(j, owners, g), c);
  }

  // ---- reorders that found no successor ----

  /** After the flush, a slot that still shows a reorder belongs to an unresolved entry. */
  ghost predicate ShownUnresolved(c: Core, d: Direction) {
    Slot(c, d).Some? && Slot(c, d).value.reorder ==> c.journal[Slot(c, d).value.index].holdState == Unresolved
  }

  lemma FlushShows(c: Core, d: Direction, destination: Address, sent: bool)
    requires Slot(c, d).Some?
    ensures ShownUnresolved(FlushSlot(c, d, destination, sent).core, d)
    ensures Slot(c, Other(d)).Some? && Slot(c, Other(d)).value.index != Slot(c, d).value.index && ShownUnresolved(c, Other(d))
            ==> ShownUnresolved(FlushSlot(c, d, destination, sent).core, Other(d))
    ensures Slot(FlushSlot(c, d, destination, sent).core, Other(d)) == Slot(c, Other(d))
  {
  }

  lemma SlotsDiffer(c: Core)
    requires Ledger(c) && c.heldClient.Some? && c.heldServer.Some?
    ensures c.heldClient.value.index != c.heldServer.value.index
  {
    assert SlotMatches(c, ClientToServer) && SlotMatches(c, ServerToClient);
  }

  lemma FlushShowsAll(s: State, clientSent: bool, serverSent: bool)
    requires Invariant(s) && s.phase == Left && Flush(s, clientSent, serverSent).phase == Left
    ensures var c := Flush(s, clientSent, serverSent).core;
            ShownUnresolved(c, ClientToServer) && ShownUnresolved(c, ServerToClient)
  {
    hide FlushSlot, ShownUnresolved, CoreLive, Final, LinkLive, LinkSound, Attributed, WithinBudget, Ledger, HalfDrained;
    FlushClientStage(s, clientSent);
    var s1 := FlushClientSlot(s, clientSent);
    if s.core.heldClient.Some? {
      FlushShows(s.core, ClientToServer, s.core.heldClient.value.destination, clientSent);
    } else {
      NoSlotNoReorder(s.core, ClientToServer);
    }
    if s1.core.heldServer.Some? {
      if s1.core.heldClient.Some? { SlotsDiffer(s1.core); } else { NoSlotNoReorder(FlushServerSlot(s1, serverSent).core, ClientToServer) by { ServerFlushSlots(s1, serverSent); } }
      FlushShows(s1.core, ServerToClient, s1.link.client.value, serverSent);
    } else {
      NoSlotNoReorder(s1.core, ServerToClient);
    }
  }

  lemma ServerFlushSlots(s: State, sent: bool)
    ensures FlushServerSlot(s, sent).core.heldClient == s.core.heldClient
  {
  }

  lemma NoSlotNoReorder(c: Core, d: Direction)
    requires Slot(c, d).None?
    ensures ShownUnresolved(c, d)
  {
  }

  // ---- the verdict ----

  /** What a journal must show, and the run must have been like, for the capture to be complete. */
  ghost predicate Shows(s: State, t: RelayMachine.Transition) {
    var j := s.core.journal;
    && s.status.limitReached.None? && !s.status.wrongSource && (s.cfg.functional ==> s.status.stopRequested)
    && s.link.client.Some?
    && (exists i :: Travels(j, i, ClientToServer)) && (exists i :: Travels(j, i, ServerToClient))
    && (forall i :: 0 <= i < |j| && j[i].wrongSource ==> s.cfg.functional && j[i].action == AuxiliaryObservation)
    && |Perturbed(j)| == ExpectedPerturbations(s.cfg.scenario)
    && (s.cfg.scenario == ReorderServerRuntime ==>
          ReorderDone(j) && forall i :: 0 <= i < |j| ==> j[i].holdState != Unresolved)
    && (s.cfg.scenario == Reconnect ==>
          && s.link.current == 1 && t.prepared && t.shutdown && t.bLearned && t.bConnect && t.bAccept
          && Connected(j, s.owners, 0) && Connected(j, s.owners, 1))
  }

  ghost predicate Travels(j: seq<Entry>, i: int, d: Direction) { 0 <= i < |j| && j[i].direction == d }

  lemma {:induction false} CountPositive(j: seq<Entry>, d: Direction)
    ensures CountDirection(j, d) > 0 <==> exists i :: Travels(j, i, d)
  {
    if j != [] {
      var n := |j| - 1;
      CountPositive(j[..n], d);
      if j[n].direction == d { assert Travels(j, n, d); }
      if i :| Travels(j[..n], i, d) { assert Travels(j, i, d); }
      if i :| Travels(j, i, d) { assert i < n ==> Travels(j[..n], i, d); }
    }
  }

  lemma {:induction false} AuxiliaryCounted(j: seq<Entry>)
    requires forall i :: 0 <= i < |j| ==> (j[i].wrongSource <==> j[i].action == AuxiliaryObservation)
    ensures CountWrong(j) == CountAuxiliary(j)
  {
    if j != [] { AuxiliaryCounted(j[..|j| - 1]); }
  }

  lemma {:induction false} NoWrongNoCount(j: seq<Entry>)
    requires forall i :: 0 <= i < |j| ==> !j[i].wrongSource
    ensures CountWrong(j) == 0
  {
    if j != [] { NoWrongNoCount(j[..|j| - 1]); }
  }

  lemma {:induction false} NoAuxiliaryNoCount(j: seq<Entry>)
    requires forall i :: 0 <= i < |j| ==> j[i].action != AuxiliaryObservation
    ensures CountAuxiliary(j) == 0
  {
    if j != [] { NoAuxiliaryNoCount(j[..|j| - 1]); }
  }

  ghost predicate AuxiliaryFits(s: State) {
    var j := s.core.journal;
    && (forall i :: 0 <= i < |j| && j[i].action == AuxiliaryObservation ==> j[i].wrongSource && s.cfg.functional)
    && CountAuxiliary(j) == s.status.auxiliaryCount
  }

  lemma SoundAuxiliary(s: State)
    requires Ledger(s.core) && WithinBudget(s)
    ensures AuxiliaryFits(s)
  {
    var j := s.core.journal;
    forall i | 0 <= i < |j| && j[i].action == AuxiliaryObservation ensures j[i].wrongSource && s.cfg.functional {
      assert EntryShape(j, i) && EntryWithin(s.cfg, s.status.elapsed, j[i]);
    }
  }

  /** The two counts of wrong sources agree with what is permitted exactly when all are permitted. */
  lemma WrongPermitted(s: State)
    requires AuxiliaryFits(s)
    ensures var j, permitted := s.core.journal, if s.cfg.functional then s.status.auxiliaryCount else 0;
            CountWrong(j) == permitted && CountAuxiliary(j) == permitted
            <==> forall i :: 0 <= i < |j| && j[i].wrongSource ==> s.cfg.functional && j[i].action == AuxiliaryObservation
  {
    var j := s.core.journal;
    if s.cfg.functional {
      if CountWrong(j) == CountAuxiliary(j) { WrongAreAuxiliary(j); }
      if forall i :: 0 <= i < |j| && j[i].wrongSource ==> j[i].action == AuxiliaryObservation { AuxiliaryCounted(j); }
    } else {
      NoAuxiliaryNoCount(j);
      if CountWrong(j) == 0 { NoneWrong(j); }
      if forall i :: 0 <= i < |j| ==> !j[i].wrongSource { NoWrongNoCount(j); }
    }
  }

  lemma UnresolvedShown(c: Core)
    requires ShownUnresolved(c, ClientToServer) && ShownUnresolved(c, ServerToClient) && UnresolvedInSlot(c)
    requires forall i :: 0 <= i < |c.journal| ==> EntrySettled(c.journal[i])
    ensures UnresolvedReorder(c) <==> exists i :: 0 <= i < |c.journal| && c.journal[i].holdState == Unresolved
  {
    var j := c.journal;
    if i :| 0 <= i < |j| && j[i].holdState == Unresolved {
      assert EntrySettled(j[i]);
      var d :| Slot(c, d).Some? && Slot(c, d).value.index == i && Slot(c, d).value.reorder;
      assert d == ClientToServer || d == ServerToClient;
    }
  }

  lemma ReconnectShown(s: State, t: RelayMachine.Transition)
    requires LinkSound(s) && Attributed(s) && Reconnecting(s)
    ensures ReconnectComplete(s, t) <==>
            && s.link.current == 1 && t.prepared && t.shutdown && t.bLearned && t.bConnect && t.bAccept
            && Connected(s.core.journal, s.owners, 0) && Connected(s.core.journal, s.owners, 1)
  {
    GenerationCompleteExactly(s.core.journal, s.owners, 0);
    GenerationCompleteExactly(s.core.journal, s.owners, 1);
    SummaryRange(s.core.journal, s.owners, 0);
    SummaryRange(s.core.journal, s.owners, 1);
    hide Connected, AttributionSound, WireSound, Summary;
    if s.genA.last.Some? && s.genB.first.Some? {
      assert Owned(s.owners, 0, s.genA.last.value) && Owned(s.owners, 1, s.genB.first.value);
    }
  }

  lemma SoundCounts(s: State)
    requires Ledger(s.core)
    ensures var c := s.core;
            && c.counters.clientPackets == CountDirection(c.journal, ClientToServer)
            && c.counters.serverPackets == CountDirection(c.journal, ServerToClient)
            && c.counters.ignoredWrongSource == CountWrong(c.journal) && c.counters.auxiliary == CountAuxiliary(c.journal)
  {
    hide WireMatches, SlotMatches, EntryShape;
  }

  /** Of a run that was flushed: the verdict is complete exactly when the journal shows it. */
  lemma JudgedAsShown(s: State, t: RelayMachine.Transition)
    requires Sound(s) && CountersConsistent(s.core) && Tallied(s.core) && UnresolvedInSlot(s.core)
    requires ShownUnresolved(s.core, ClientToServer) && ShownUnresolved(s.core, ServerToClient)
    requires forall i :: 0 <= i < |s.core.journal| ==> EntrySettled(s.core.journal[i])
    ensures Complete(s, t) <==> Shows(s, t)
  {
    hide Sound, Tallied, UnresolvedInSlot, ShownUnresolved, EntrySettled, Perturbed, ReorderDone, Connected, AuxiliaryFits,
         CountDirection, CountWrong, CountAuxiliary, Travels, Ledger, WithinBudget, LinkSound, Attributed, ReconnectComplete;
    var j := s.core.journal;
    SoundParts(s);
    SoundCounts(s);
    CountPositive(j, ClientToServer);
    CountPositive(j, ServerToClient);
    SoundAuxiliary(s);
    WrongPermitted(s);
    UnresolvedShown(s.core);
    TalliedReorder(s.core);
    PerturbedAreCounted(s.core);
    if Reconnecting(s) { ReconnectShown(s, t); } else { NoReconnect(s, t); }
  }

  lemma NoReconnect(s: State, t: RelayMachine.Transition)
    requires !Reconnecting(s)
    ensures ReconnectComplete(s, t)
  {
  }

  lemma SoundParts(s: State)
    requires Sound(s)
    ensures Ledger(s.core) && WithinBudget(s) && LinkSound(s) && Attributed(s)
  {
    hide Ledger, WithinBudget, LinkSound, Attributed;
  }

  /** After every run that was not stopped by a terminal failure the verdict is complete if and only if: no
      limit was reached, no wrong source seen but admitted queries, both sides were heard, exactly as many
      datagrams were perturbed as the scenario asks for, a reorder was carried out where one is asked for,
      and in the reconnect scenario both generations show a whole handshake and the transition agrees. */
  lemma VerdictExact(cfg: Config, ticks: seq<Tick>, clientSent: bool, serverSent: bool, t: RelayMachine.Transition)
    requires Finish(cfg, ticks, clientSent, serverSent).phase == Left
    ensures var s := Finish(cfg, ticks, clientSent, serverSent); Complete(s, t) <==> Shows(s, t)
  {
    EveryExitIsSound(cfg, ticks, clientSent, serverSent);
    EveryExitIsFinal(cfg, ticks, clientSent, serverSent);
    SelfCheckAlwaysHolds(cfg, ticks, clientSent, serverSent);
    FinishUnresolved(cfg, ticks, clientSent, serverSent);
    FinishShows(cfg, ticks, clientSent, serverSent);
    var s := Finish(cfg, ticks, clientSent, serverSent);
    hide Finish, Sound, Tallied, UnresolvedInSlot, ShownUnresolved, EntrySettled, Complete, Shows, CountersConsistent, Plausible;
    JudgedAsShown(s, t);
  }

  lemma FinishShows(cfg: Config, ticks: seq<Tick>, clientSent: bool, serverSent: bool)
    requires Finish(cfg, ticks, clientSent, serverSent).phase == Left
    ensures var c := Finish(cfg, ticks, clientSent, serverSent).core;
            ShownUnresolved(c, ClientToServer) && ShownUnresolved(c, ServerToClient)
  {
    hide Invariant, Flush, ShownUnresolved;
    RunInvariant(cfg, ticks);
    FlushShowsAll(Run(Initial(cfg), ticks), clientSent, serverSent);
  }
}
