/** When the journal a run leaves behind passes the rules it must meet to be published. */
module RelayPublication {
  import opened Common
  import opened RelayTypes
  import opened RelayCore
  import opened RelayLedger
  import opened RelaySettled
  import opened RelayTallies
  import opened RelayHolds
  import opened RelayMachine
  import opened RelayBudget
  import opened RelayFinal
  import opened RelayRuns
  import opened RelayInvariant
  import opened RelaySafety
  import opened RelayVerdict
  import opened JournalRules
  import opened RawFiles
  import Decimal

  /** The policy the relay publishes under: only a complete verdict asks for a complete journal. */
  function PublicationPolicy(cfg: Config, complete: bool): Policy {
    if !complete then IncompleteCapture
    else if cfg.functional then FunctionalCompleteCapture else CompleteCapture
  }

  function PublicationLimits(l: Limits): JournalLimits {
    JournalLimits(l.maxDatagrams, l.maxPayload, l.maxRawBytes, 2 * l.maxDatagrams, l.maxTimestamp)
  }

  /** The exact condition for publication. The journal must not be empty; auxiliary observations
      are tolerated only in a complete functional capture; a hold must not be half released by a
      failed send; and the datagram that follows a released hold in its direction must not come
      from a wrong source. */
  ghost predicate Publishable(j: seq<Entry>, policy: Policy) {
    && j != []
    && (policy != FunctionalCompleteCapture ==> forall i :: 0 <= i < |j| ==> j[i].action != AuxiliaryObservation)
    && (forall i :: 0 <= i < |j| && IsHold(j[i].action) ==> HoldPublishable(j, i))
  }

  ghost predicate HoldPublishable(j: seq<Entry>, i: nat)
    requires i < |j|
  {
    && (j[i].holdState == Held ==> j[i].emitted == [])
    && (j[i].holdState == Released && j[i].emitted == [] ==> i == |j| - 1)
    && (j[i].holdState == Released ==> NextSourceOwn(j, i))
  }

  ghost predicate NextSourceOwn(j: seq<Entry>, i: nat)
    requires i < |j|
  {
    forall q :: i < q < |j| && FirstSameDirection(j, i, q) ==> !j[q].wrongSource
  }

  // ---- the rules one by one ----

  lemma {:induction false} BytesMonotone(j: seq<Entry>, a: nat)
    requires a <= |j|
    ensures CountBytes(j[..a]) <= CountBytes(j)
    decreases |j| - a
  {
    if a < |j| {
      BytesMonotone(j, a + 1);
      assert j[..a + 1][..a] == j[..a];
    } else {
      assert j[..a] == j;
    }
  }

  lemma {:induction false} WrongMonotone(j: seq<Entry>, a: nat)
    requires a <= |j|
    ensures CountWrong(j[..a]) <= CountWrong(j)
    decreases |j| - a
  {
    if a < |j| {
      WrongMonotone(j, a + 1);
      assert j[..a + 1][..a] == j[..a];
    } else {
      assert j[..a] == j;
    }
  }

  ghost predicate WrongOnesAdmitted(j: seq<Entry>, policy: Policy) {
    forall i :: 0 <= i < |j| && j[i].wrongSource && policy != IncompleteCapture ==> AdmittedAuxiliary(j, i, policy)
  }

  lemma OriginsAccepted(cfg: Config, c: Core, elapsed: nat, auxiliary: nat, policy: Policy)
    requires Ledger(c) && Within(cfg, c.journal, elapsed, auxiliary) && WrongOnesAdmitted(c.journal, policy)
    ensures forall i :: 0 <= i < |c.journal| ==> OriginAccepted(c.journal, i, PublicationLimits(cfg.limits), policy)
  {
    var j := c.journal;
    forall i | 0 <= i < |j| ensures OriginAccepted(j, i, PublicationLimits(cfg.limits), policy) {
      assert EntryShape(j, i) && EntryWithin(cfg, elapsed, j[i]) && EntryWire(j[i], i, c.wire);
      BytesMonotone(j, i + 1);
    }
  }

  lemma OrdinalsAccepted(c: Core)
    requires WireMatches(c)
    ensures OrdinalsPartition(c.journal, |c.wire|)
  {
    var j := c.journal;
    forall i, k | 0 <= i < |j| && k in j[i].emitted ensures k < |c.wire| && c.wire[k].index == i {
      assert EntryWire(j[i], i, c.wire);
    }
    forall k: nat | k < |c.wire| ensures Appears(j, k) {
      assert OnWire(j, c.wire, k);
    }
  }

  /** Emission counts and hold states of an incomplete journal. */
  lemma EmissionsExact(c: Core, i: nat)
    requires Ledger(c) && Final(c) && i < |c.journal|
    ensures EmissionsAccepted(c.journal, i, IncompleteCapture) <==>
            var e := c.journal[i];
            && e.action != AuxiliaryObservation
            && (e.holdState == Held ==> e.emitted == [])
            && (e.holdState == Released && e.emitted == [] ==> i == |c.journal| - 1)
  {
    assert PlausibleEntry(c.journal[i], i == |c.journal| - 1) && EntryShape(c.journal, i);
  }

  /** A release is in order exactly when its direction's next datagram comes from the own source. */
  lemma ReleaseExact(cfg: Config, c: Core, elapsed: nat, auxiliary: nat, i: nat)
    requires Ledger(c) && Final(c) && Within(cfg, c.journal, elapsed, auxiliary)
    requires i < |c.journal| && IsHold(c.journal[i].action) && c.journal[i].holdState == Released
    ensures ReleaseAccepted(c.journal, i) <==> NextSourceOwn(c.journal, i)
  {
    hide WireMatches, Within, Tallied, Plausible, SlotMatches;
    if NextSourceOwn(c.journal, i) { OwnNextIsAccepted(cfg, c, elapsed, auxiliary, i); }
    if ReleaseAccepted(c.journal, i) { AcceptedNextIsOwn(c, i); }
  }

  lemma AcceptedNextIsOwn(c: Core, i: nat)
    requires Shape(c) && i < |c.journal| && IsHold(c.journal[i].action) && c.journal[i].holdState == Released
    requires ReleaseAccepted(c.journal, i)
    ensures NextSourceOwn(c.journal, i)
  {
    var j := c.journal;
    forall q | i < q < |j| && FirstSameDirection(j, i, q) ensures !j[q].wrongSource {
      assert EntryShape(j, q) && j[q].action == Forward;
    }
  }

  lemma OwnNextIsAccepted(cfg: Config, c: Core, elapsed: nat, auxiliary: nat, i: nat)
    requires Shape(c) && HoldHistory(c.journal) && DeadlineReleases(c.journal)
    requires Within(cfg, c.journal, elapsed, auxiliary)
    requires i < |c.journal| && IsHold(c.journal[i].action) && c.journal[i].holdState == Released
    requires NextSourceOwn(c.journal, i)
    ensures ReleaseAccepted(c.journal, i)
  {
    var j := c.journal;
    assert EntryShape(j, i);
    if forall q :: i < q < |j| ==> j[q].direction != j[i].direction {
      assert NoForward(j, j[i].direction, i, |j|);
    }
    forall q | i < q < |j| && FirstSameDirection(j, i, q)
      ensures ReleasedTogether(j[i], j[q]) && j[q].action == Forward
    {
      OnlyHold(cfg, c, elapsed, auxiliary, i, q);
      hide Within, EntryShape, Shape;
      assert Successor(j, i, q);
    }
  }

  /** An incomplete capture's journal is accepted if and only if it is publishable. */
  lemma IncompleteExact(cfg: Config, c: Core, elapsed: nat, auxiliary: nat)
    requires ValidLimits(cfg.limits)
    requires Ledger(c) && Final(c) && Within(cfg, c.journal, elapsed, auxiliary)
    ensures Acceptable(c.journal, PublicationLimits(cfg.limits), IncompleteCapture) <==> Publishable(c.journal, IncompleteCapture)
  {
    var j := c.journal;
    OriginsAccepted(cfg, c, elapsed, auxiliary, IncompleteCapture);
    OrdinalsAccepted(c);
    forall i | 0 <= i < |j|
      ensures EmissionsAccepted(j, i, IncompleteCapture) && ReleaseAccepted(j, i) <==>
              j[i].action != AuxiliaryObservation && (IsHold(j[i].action) ==> HoldPublishable(j, i))
    {
      EmissionsExact(c, i);
      assert PlausibleEntry(j[i], i == |j| - 1);
      if IsHold(j[i].action) && j[i].holdState == Released { ReleaseExact(cfg, c, elapsed, auxiliary, i); }
    }
    assert |c.wire| <= 2 * cfg.limits.maxDatagrams;
  }

  /** What a complete verdict guarantees about the journal. */
  ghost predicate FullyDelivered(j: seq<Entry>, policy: Policy) {
    && policy != IncompleteCapture
    && (forall i :: 0 <= i < |j| ==>
          && EntrySettled(j[i]) && j[i].holdState != Held && j[i].holdState != Unresolved
          && (j[i].action == AuxiliaryObservation ==> j[i].wrongSource)
          && (j[i].wrongSource ==> j[i].action == AuxiliaryObservation && policy == FunctionalCompleteCapture))
    && CountWrong(j) <= MAX_AUXILIARY_QUERIES
  }

  lemma DeliveredAdmits(cfg: Config, c: Core, elapsed: nat, auxiliary: nat, policy: Policy)
    requires Ledger(c) && Within(cfg, c.journal, elapsed, auxiliary) && FullyDelivered(c.journal, policy)
    ensures WrongOnesAdmitted(c.journal, policy)
  {
    var j := c.journal;
    forall i | 0 <= i < |j| && j[i].wrongSource ensures AdmittedAuxiliary(j, i, policy) {
      assert EntryWithin(cfg, elapsed, j[i]) && EntryWire(j[i], i, c.wire) && EntrySettled(j[i]);
      WrongMonotone(j, i + 1);
      assert j[..i + 1][..i] == j[..i];
      assert |AUXILIARY_QUERY| == 25;
    }
  }

  /** A complete capture's journal is accepted if and only if it is publishable, and then it is
      transport complete. */
  lemma CompleteExact(cfg: Config, c: Core, elapsed: nat, auxiliary: nat, policy: Policy)
    requires ValidLimits(cfg.limits) && c.journal != []
    requires Ledger(c) && Final(c) && Within(cfg, c.journal, elapsed, auxiliary)
    requires FullyDelivered(c.journal, policy)
    ensures Acceptable(c.journal, PublicationLimits(cfg.limits), policy) <==> Publishable(c.journal, policy)
    ensures TransportComplete(c.journal, policy)
  {
    var j, l := c.journal, PublicationLimits(cfg.limits);
    DeliveredAdmits(cfg, c, elapsed, auxiliary, policy);
    OriginsAccepted(cfg, c, elapsed, auxiliary, policy);
    OrdinalsAccepted(c);
    assert |c.wire| <= l.maxEmitted && |j| <= l.maxEntries && ConfigurationAccepted(l);
    forall i | 0 <= i < |j| ensures EntryOfComplete(j, i, policy) {
      EmissionsComplete(c, policy, i);
      if IsHold(j[i].action) { HoldComplete(cfg, c, elapsed, auxiliary, policy, i); }
    }
    hide Ledger, Final, Within, PublicationLimits, ValidLimits, ConfigurationAccepted;
    CompleteRules(j, l, policy, |c.wire|);
    assert TransportComplete(j, policy) by {
      hide Acceptable, Publishable, AdmittedAuxiliary, EmissionsAccepted, ReleaseAccepted, HoldPublishable;
      forall i | 0 <= i < |j| ensures |j[i].emitted| == Required(j[i]) { assert EntryOfComplete(j, i, policy); }
    }
  }

  ghost predicate EntryOfComplete(j: seq<Entry>, i: nat, policy: Policy)
    requires i < |j|
  {
    && EmissionsAccepted(j, i, policy) && |j[i].emitted| == Required(j[i])
    && (j[i].action == AuxiliaryObservation ==> policy == FunctionalCompleteCapture)
    && (IsHold(j[i].action) ==> (ReleaseAccepted(j, i) <==> HoldPublishable(j, i)))
  }

  lemma CompleteRules(j: seq<Entry>, l: JournalLimits, policy: Policy, emitted: nat)
    requires ConfigurationAccepted(l) && 0 < |j| <= l.maxEntries && emitted <= l.maxEmitted
    requires forall i :: 0 <= i < |j| ==> OriginAccepted(j, i, l, policy)
    requires forall i :: 0 <= i < |j| ==> EntryOfComplete(j, i, policy)
    requires OrdinalsPartition(j, emitted)
    ensures Acceptable(j, l, policy) <==> Publishable(j, policy)
  {
    hide OriginAccepted, EmissionsAccepted, OrdinalsPartition, HoldPublishable, ConfigurationAccepted;
    forall i | 0 <= i < |j|
      ensures EmissionsAccepted(j, i, policy)
      ensures j[i].action == AuxiliaryObservation ==> policy == FunctionalCompleteCapture
      ensures ReleaseAccepted(j, i) <==> (IsHold(j[i].action) ==> HoldPublishable(j, i))
    {
      assert EntryOfComplete(j, i, policy);
    }
    hide ReleaseAccepted;
  }

  lemma EmissionsComplete(c: Core, policy: Policy, i: nat)
    requires Shape(c) && Plausible(c.journal) && FullyDelivered(c.journal, policy) && i < |c.journal|
    ensures var j := c.journal;
            && EmissionsAccepted(j, i, policy) && |j[i].emitted| == Required(j[i])
            && (j[i].action == AuxiliaryObservation ==> policy == FunctionalCompleteCapture)
  {
    var j := c.journal;
    assert PlausibleEntry(j[i], i == |j| - 1) && EntryShape(j, i) && EntrySettled(j[i]);
    hide Shape, Plausible, FullyDelivered;
  }

  lemma HoldComplete(cfg: Config, c: Core, elapsed: nat, auxiliary: nat, policy: Policy, i: nat)
    requires Ledger(c) && Final(c) && Within(cfg, c.journal, elapsed, auxiliary)
    requires FullyDelivered(c.journal, policy) && i < |c.journal| && IsHold(c.journal[i].action)
    ensures ReleaseAccepted(c.journal, i) <==> HoldPublishable(c.journal, i)
  {
    assert EntrySettled(c.journal[i]);
    hide Ledger, Final, Within, ReleaseAccepted, NextSourceOwn;
    ReleaseExact(cfg, c, elapsed, auxiliary, i);
  }

  // ---- from the verdict to the journal ----

  /** Only the flush leaves a hold unresolved, and then its slot still shows the reorder. */
  ghost predicate UnresolvedInSlot(c: Core) {
    forall i :: 0 <= i < |c.journal| && c.journal[i].holdState == Unresolved && IsHold(c.journal[i].action) ==>
      exists d :: Slot(c, d).Some? && Slot(c, d).value.index == i && Slot(c, d).value.reorder
  }

  lemma FlushUnresolved(c: Core, d: Direction, destination: Address, sent: bool)
    requires UnresolvedInSlot(c) && Slot(c, d).Some?
    ensures UnresolvedInSlot(FlushSlot(c, d, destination, sent).core)
  {
    var c' := FlushSlot(c, d, destination, sent).core;
    forall i | 0 <= i < |c'.journal| && c'.journal[i].holdState == Unresolved && IsHold(c'.journal[i].action)
      ensures exists e :: Slot(c', e).Some? && Slot(c', e).value.index == i && Slot(c', e).value.reorder
    {
      if i == Slot(c, d).value.index {
        assert Slot(c', d) == Slot(c, d);
      } else {
        var e :| Slot(c, e).Some? && Slot(c, e).value.index == i && Slot(c, e).value.reorder;
        assert Slot(c', e) == Slot(c, e);
      }
    }
  }

  lemma LiveHasNone(c: Core)
    requires CoreLive(c)
    ensures UnresolvedInSlot(c)
  {
    hide Settled, Tallied, HoldHistory;
  }

  lemma FlushLeavesUnresolved(s: State, clientSent: bool, serverSent: bool)
    requires UnresolvedInSlot(s.core) && s.phase == Left
    ensures UnresolvedInSlot(Flush(s, clientSent, serverSent).core)
  {
    hide FlushSlot, UnresolvedInSlot;
    if s.core.heldClient.Some? {
      FlushUnresolved(s.core, ClientToServer, s.core.heldClient.value.destination, clientSent);
    }
    var s1 := FlushClientSlot(s, clientSent);
    if s1.core.heldServer.Some? && s1.link.client.Some? {
      FlushUnresolved(s1.core, ServerToClient, s1.link.client.value, serverSent);
    }
  }

  lemma FinishUnresolved(cfg: Config, ticks: seq<Tick>, clientSent: bool, serverSent: bool)
    requires Finish(cfg, ticks, clientSent, serverSent).phase == Left
    ensures UnresolvedInSlot(Finish(cfg, ticks, clientSent, serverSent).core)
  {
    hide Sound, Final, CoreLive, LinkLive, Run, Initial, Flush, UnresolvedInSlot;
    RunInvariant(cfg, ticks);
    var s := Run(Initial(cfg), ticks);
    LiveHasNone(s.core);
    FlushLeavesUnresolved(s, clientSent, serverSent);
  }

  /** Reorders are held in the reorder scenario only. */
  lemma ReorderScenario(s: State)
    requires Sound(s) && UnresolvedReorder(s.core)
    ensures s.cfg.scenario == ReorderServerRuntime
  {
    var d := if s.core.heldClient.Some? && s.core.heldClient.value.reorder then ClientToServer else ServerToClient;
    assert SlotMatches(s.core, d);
    assert EntryWithin(s.cfg, s.status.elapsed, s.core.journal[Slot(s.core, d).value.index]);
  }

  lemma {:induction false} WrongAreAuxiliary(j: seq<Entry>)
    requires CountWrong(j) == CountAuxiliary(j)
    requires forall i :: 0 <= i < |j| && j[i].action == AuxiliaryObservation ==> j[i].wrongSource
    ensures forall i :: 0 <= i < |j| && j[i].wrongSource ==> j[i].action == AuxiliaryObservation
  {
    if j != [] {
      AuxiliaryBelowWrong(j[..|j| - 1]);
      WrongAreAuxiliary(j[..|j| - 1]);
    }
  }

  lemma {:induction false} AuxiliaryBelowWrong(j: seq<Entry>)
    requires forall i :: 0 <= i < |j| && j[i].action == AuxiliaryObservation ==> j[i].wrongSource
    ensures CountAuxiliary(j) <= CountWrong(j)
  {
    if j != [] { AuxiliaryBelowWrong(j[..|j| - 1]); }
  }

  lemma {:induction false} NoneWrong(j: seq<Entry>)
    requires CountWrong(j) == 0
    ensures forall i :: 0 <= i < |j| ==> !j[i].wrongSource
  {
    if j != [] { NoneWrong(j[..|j| - 1]); }
  }

  /** A complete verdict leaves no reorder waiting. */
  lemma NothingUnresolved(s: State, t: Transition)
    requires Sound(s) && UnresolvedInSlot(s.core) && Complete(s, t)
    ensures var j := s.core.journal;
            forall i :: 0 <= i < |j| && IsHold(j[i].action) ==> j[i].holdState != Unresolved
  {
    var j := s.core.journal;
    forall i | 0 <= i < |j| && IsHold(j[i].action) ensures j[i].holdState != Unresolved {
      if j[i].holdState == Unresolved {
        var d :| Slot(s.core, d).Some? && Slot(s.core, d).value.index == i && Slot(s.core, d).value.reorder;
        assert UnresolvedReorder(s.core);
        ReorderScenario(s);
      }
    }
  }

  /** A complete verdict admits the wrong sources it has seen. */
  lemma WrongOnesPermitted(s: State, t: Transition)
    requires Sound(s) && Complete(s, t)
    ensures var j := s.core.journal;
            && j != [] && CountWrong(j) <= MAX_AUXILIARY_QUERIES
            && (forall i :: 0 <= i < |j| ==>
                  (j[i].wrongSource <==> j[i].action == AuxiliaryObservation) && (j[i].wrongSource ==> s.cfg.functional))
  {
    var j := s.core.journal;
    forall i | 0 <= i < |j| && j[i].action == AuxiliaryObservation ensures j[i].wrongSource {
      assert EntryShape(j, i);
    }
    WrongAreAuxiliary(j);
    if !s.cfg.functional { NoneWrong(j); }
  }

  lemma VerdictDelivers(s: State, t: Transition)
    requires Sound(s) && Flushed(s.core, true, true) && UnresolvedInSlot(s.core) && Complete(s, t)
    ensures FullyDelivered(s.core.journal, PublicationPolicy(s.cfg, true))
    ensures s.core.journal != []
  {
    NothingUnresolved(s, t);
    WrongOnesPermitted(s, t);
    hide Sound, Complete, UnresolvedInSlot;
    var j := s.core.journal;
    forall i | 0 <= i < |j| ensures EntrySettled(j[i]) && j[i].holdState != Held && j[i].holdState != Unresolved {
      assert j[i].direction == ClientToServer || j[i].direction == ServerToClient;
    }
  }

  // ---- what a complete verdict says ----

  /** The datagrams that were deliberately not just forwarded. */
  ghost function Perturbed(j: seq<Entry>): set<int> {
    set i | 0 <= i < |j| && j[i].action != Forward && j[i].action != AuxiliaryObservation
  }

  lemma PerturbedIsUnion(j: seq<Entry>)
    requires forall i :: 0 <= i < |j| ==> EntrySettled(j[i])
    ensures Perturbed(j) == Dropped(j) + (Duplicated(j) + HeldBack(j))
    ensures Duplicated(j) !! HeldBack(j) && Dropped(j) !! (Duplicated(j) + HeldBack(j))
  {
    forall i | 0 <= i < |j|
      ensures SentTwice(j[i]) <==> j[i].action == Duplicate
      ensures j[i].holdState != NotHeld <==> IsHold(j[i].action)
    {
      assert EntrySettled(j[i]);
    }
    hide EntrySettled, SentTwice;
  }

  lemma PerturbedAreCounted(c: Core)
    requires Tallied(c) && forall i :: 0 <= i < |c.journal| ==> EntrySettled(c.journal[i])
    ensures |Perturbed(c.journal)| == c.perturbations
  {
    PerturbedIsUnion(c.journal);
    CountsAreSizes(c.journal);
    hide Perturbed, Dropped, Duplicated, HeldBack, EntrySettled;
  }

  /** An entry of a complete capture: sent as often as its action asks, nothing held or unresolved,
      and from a wrong source only if it is an admitted auxiliary query of a functional capture. */
  ghost predicate DealtWith(j: seq<Entry>, i: nat, functional: bool)
    requires i < |j|
  {
    var e := j[i];
    && e.holdState == (if IsHold(e.action) then Released else NotHeld)
    && |e.emitted| == (match e.action
                       case Drop => 0
                       case AuxiliaryObservation => 0
                       case Duplicate => 2
                       case _ => 1)
    && (e.action == Duplicate ==> e.emitted[1] == e.emitted[0] + 1)
    && (e.wrongSource ==> functional && AdmittedAuxiliary(j, i, FunctionalCompleteCapture))
    && (e.action == AuxiliaryObservation ==> e.wrongSource)
  }

  lemma DeliveredIsDealtWith(cfg: Config, c: Core, elapsed: nat, auxiliary: nat)
    requires Ledger(c) && Within(cfg, c.journal, elapsed, auxiliary)
    requires FullyDelivered(c.journal, PublicationPolicy(cfg, true))
    ensures forall i :: 0 <= i < |c.journal| ==> DealtWith(c.journal, i, cfg.functional)
  {
    var j := c.journal;
    DeliveredAdmits(cfg, c, elapsed, auxiliary, PublicationPolicy(cfg, true));
    hide Ledger, Within, AdmittedAuxiliary;
    forall i | 0 <= i < |j| ensures DealtWith(j, i, cfg.functional) {
      assert EntrySettled(j[i]);
    }
  }

  /** A complete verdict means that every datagram was dealt with as its action says, that exactly
      as many were perturbed as the scenario asks for, and in the reorder scenario that one of them
      was really reordered. */
  lemma CompleteMeansDelivered(cfg: Config, ticks: seq<Tick>, clientSent: bool, serverSent: bool, t: Transition)
    requires var s := Finish(cfg, ticks, clientSent, serverSent); s.phase == Left && Complete(s, t)
    ensures var j := Finish(cfg, ticks, clientSent, serverSent).core.journal;
            && j != []
            && (forall i :: 0 <= i < |j| ==> DealtWith(j, i, cfg.functional))
            && |Perturbed(j)| == ExpectedPerturbations(cfg.scenario)
            && (cfg.scenario == ReorderServerRuntime ==> ReorderDone(j))
  {
    hide Within, Ledger, Flushed, FullyDelivered, Tallied, EntrySettled, Perturbed, DealtWith, ReorderDone, UnresolvedInSlot;
    EveryExitIsSound(cfg, ticks, clientSent, serverSent);
    EveryExitIsFinal(cfg, ticks, clientSent, serverSent);
    SelfCheckAlwaysHolds(cfg, ticks, clientSent, serverSent);
    FinishUnresolved(cfg, ticks, clientSent, serverSent);
    var s := Finish(cfg, ticks, clientSent, serverSent);
    hide Finish, LinkSound, SlotsSound, Attributed, ReconnectComplete;
    VerdictDelivers(s, t);
    DeliveredIsDealtWith(cfg, s.core, s.status.elapsed, s.status.auxiliaryCount);
    DeliveredIsSettled(s.core.journal, PublicationPolicy(cfg, true));
    PerturbedAreCounted(s.core);
    assert s.core.reorderCompleted <==> ReorderDone(s.core.journal) by { TalliedReorder(s.core); }
  }

  lemma DeliveredIsSettled(j: seq<Entry>, policy: Policy)
    requires FullyDelivered(j, policy)
    ensures forall i :: 0 <= i < |j| ==> EntrySettled(j[i])
  {
  }

  lemma TalliedReorder(c: Core)
    requires Tallied(c)
    ensures c.reorderCompleted <==> ReorderDone(c.journal)
  {
  }

  // ---- the main results ----

  /** At every exit of every run, the journal passes the publication rules under the policy the
      relay chooses if and only if it is publishable; a complete verdict makes it complete. */
  lemma PublicationExact(cfg: Config, ticks: seq<Tick>, clientSent: bool, serverSent: bool, t: Transition)
    requires ValidLimits(cfg.limits)
    ensures var s := Finish(cfg, ticks, clientSent, serverSent);
            var complete := s.phase == Left && Complete(s, t);
            var policy := PublicationPolicy(cfg, complete);
            && (Acceptable(s.core.journal, PublicationLimits(cfg.limits), policy) <==> Publishable(s.core.journal, policy))
            && (complete ==> TransportComplete(s.core.journal, policy))
  {
    hide Acceptable, Publishable, TransportComplete, Within, Final, Ledger, Complete;
    EveryExitIsSound(cfg, ticks, clientSent, serverSent);
    EveryExitIsFinal(cfg, ticks, clientSent, serverSent);
    var s := Finish(cfg, ticks, clientSent, serverSent);
    if s.phase == Left && Complete(s, t) {
      SelfCheckAlwaysHolds(cfg, ticks, clientSent, serverSent);
      FinishUnresolved(cfg, ticks, clientSent, serverSent);
      VerdictDelivers(s, t);
      CompleteExact(cfg, s.core, s.status.elapsed, s.status.auxiliaryCount, PublicationPolicy(cfg, true));
    } else {
      IncompleteExact(cfg, s.core, s.status.elapsed, s.status.auxiliaryCount);
    }
  }

  /** A complete capture outside the functional role is always published as complete. */
  lemma CampaignCompleteIsPublished(cfg: Config, ticks: seq<Tick>, clientSent: bool, serverSent: bool, t: Transition)
    requires ValidLimits(cfg.limits) && !cfg.functional
    requires var s := Finish(cfg, ticks, clientSent, serverSent); s.phase == Left && Complete(s, t)
    ensures var j := Finish(cfg, ticks, clientSent, serverSent).core.journal;
            Acceptable(j, PublicationLimits(cfg.limits), CompleteCapture) && TransportComplete(j, CompleteCapture)
  {
    hide Acceptable, TransportComplete, Within, Final, Ledger;
    PublicationExact(cfg, ticks, clientSent, serverSent, t);
    EveryExitIsSound(cfg, ticks, clientSent, serverSent);
    SelfCheckAlwaysHolds(cfg, ticks, clientSent, serverSent);
    FinishUnresolved(cfg, ticks, clientSent, serverSent);
    var s := Finish(cfg, ticks, clientSent, serverSent);
    VerdictDelivers(s, t);
    assert Publishable(s.core.journal, CompleteCapture) by {
      forall i | 0 <= i < |s.core.journal| && IsHold(s.core.journal[i].action) ensures HoldPublishable(s.core.journal, i) {
        assert EntrySettled(s.core.journal[i]);
      }
    }
  }

  // ---- the raw files ----

  /** The labels that the relay writes beside its entries. */
  ghost function WrittenLabels(j: seq<Entry>, digest: string -> seq<Byte>): (labels: seq<Label>)
    ensures |labels| == |j|
  {
    seq(|j|, i requires 0 <= i < |j| => LabelOf(j[i], digest(j[i].payload)))
  }

  lemma ShapedLabels(c: Core, digest: string -> seq<Byte>)
    requires Shape(c) && |c.journal| <= CAP_DATAGRAMS && forall p :: |digest(p)| == 32
    ensures var labels := WrittenLabels(c.journal, digest);
            && Labelled(c.journal, labels)
            && (forall i, k :: 0 <= i < k < |labels| ==> labels[i].rawFilename != labels[k].rawFilename)
  {
    var j, labels := c.journal, WrittenLabels(c.journal, digest);
    var width := 8;
    assert CAP_DATAGRAMS < Decimal.Power(5) <= Decimal.Power(width) by { PowersGrow(5, width); }
    forall i | 0 <= i < |j| ensures LabelAccepted(j[i], labels[i]) && labels[i].rawFilename == RawName(i, j[i].direction) {
      assert EntryShape(j, i);
      WrittenLabelIsAccepted(j[i], digest(j[i].payload));
    }
    forall i, k | 0 <= i < k < |labels| ensures labels[i].rawFilename != labels[k].rawFilename {
      if labels[i].rawFilename == labels[k].rawFilename { NamesAreDistinct(i, j[i].direction, k, j[k].direction); }
    }
  }

  lemma {:induction false} PowersGrow(a: nat, b: nat)
    requires a <= b
    ensures Decimal.Power(a) <= Decimal.Power(b)
    decreases b - a
  {
    if a < b { PowersGrow(a, b - 1); }
  }

  /** At every exit the validator accepts the file name and the digest of every entry as the relay
      writes them, and no two entries name the same file. */
  lemma LabelsAreAccepted(cfg: Config, ticks: seq<Tick>, clientSent: bool, serverSent: bool, digest: string -> seq<Byte>)
    requires ValidLimits(cfg.limits) && forall p :: |digest(p)| == 32
    ensures var j := Finish(cfg, ticks, clientSent, serverSent).core.journal;
            var labels := WrittenLabels(j, digest);
            && Labelled(j, labels)
            && (forall i, k :: 0 <= i < k < |labels| ==> labels[i].rawFilename != labels[k].rawFilename)
  {
    EveryExitIsSound(cfg, ticks, clientSent, serverSent);
    hide Finish, WrittenLabels, LinkSound, SlotsSound, Attributed, WireMatches, Labelled;
    ShapedLabels(Finish(cfg, ticks, clientSent, serverSent).core, digest);
  }
}
