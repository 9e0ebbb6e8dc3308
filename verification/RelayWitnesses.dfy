/** Runs whose journal the relay cannot publish, one family for each clause of `Publishable`. The
    inputs are left open where they do not matter; any choice of them is a concrete run. */
module RelayWitnesses {
  import opened Common
  import opened RelayTypes
  import opened RelayCore
  import opened RelayLedger
  import opened RelaySettled
  import opened RelayMachine
  import opened RelayRuns
  import opened RelayInvariant
  import opened RelaySafety
  import opened RelayVerdict
  import opened RelayPublication
  import opened JournalRules

  /** A turn in which at most one client datagram arrives; the first send attempt succeeds. */
  function Turn(deadline: bool, fromClient: Received, secondSent: bool): Tick {
    Tick(deadline, NotSignaled,
         NotSignaled, false, false, false, false,
         fromClient, false, false, 0, true, true, secondSent,
         NotSignaled,
         Nothing, ToRetiredA, 0, true, true, true,
         false, false, false)
  }

  /** A setup and two small datagrams of the own client that is going to be learned. */
  datatype Inputs = Inputs(cfg: Config, own: Address, foreign: Address, first: string, second: string)

  predicate Suitable(i: Inputs) {
    var l := i.cfg.limits;
    && ValidLimits(l) && l.maxDatagrams >= 2 && l.maxClientPackets >= 2
    && i.own.host == LOOPBACK_HOST && i.foreign.host == LOOPBACK_HOST && i.own != i.foreign
    && |i.first| <= l.maxPayload && |i.second| <= l.maxPayload && |i.first| + |i.second| <= l.maxRawBytes
    && !IsAuxiliaryQuery(i.first)
    && (i.cfg.scenario == Undisturbed || (i.cfg.scenario == DelayClientMove && i.cfg.perturbation.clientOrdinal == 1))
  }

  lemma RunTwo(s: State, a: Tick, b: Tick)
    requires s.phase == Looping
    ensures Run(s, [a, b]) == if Iterate(s, a).phase == Looping then Iterate(Iterate(s, a), b) else Iterate(s, a)
  {
    hide Iterate;
    var s1 := Iterate(s, a);
    assert [a, b][1..] == [b] && [b][1..] == [];
    if s1.phase == Looping { assert Run(s1, [b]) == Run(Iterate(s1, b), []); }
  }

  lemma RunThree(s: State, a: Tick, b: Tick, c: Tick)
    requires s.phase == Looping && Iterate(s, a).phase == Looping
    ensures Run(s, [a, b, c]) == Run(Iterate(s, a), [b, c])
  {
    hide Iterate;
    assert [a, b, c][1..] == [b, c];
  }

  /** With nothing else going on, a turn is its client side. */
  lemma ClientTurnOnly(s: State, fromClient: Received, secondSent: bool)
    requires s.phase == Looping && !Reconnecting(s)
    requires var r := OnClient(s, Turn(false, fromClient, secondSent));
             r.next ==> && r.state.phase == Looping && r.state.status.limitReached.None?
                        && !r.state.status.wrongSource && !r.state.link.requested
    ensures Iterate(s, Turn(false, fromClient, secondSent)) == OnClient(s, Turn(false, fromClient, secondSent)).state
  {
    hide OnClient;
  }

  // ---- the first datagram of the own client ----

  ghost function FirstSeen(i: Inputs): Observation { Observation(ClientToServer, i.first, false, false, 0) }

  ghost function FirstPolicy(i: Inputs): Action {
    CaptureAction(i.cfg.scenario, ClientToServer, 1, i.cfg.perturbation)
  }

  /** Learned and recorded, but not processed yet. */
  ghost function Learned(i: Inputs): State {
    var s := Initial(i.cfg);
    s.(link := s.link.(client := Some(i.own)),
       core := Record(EMPTY_CORE, FirstSeen(i), FirstPolicy(i)),
       owners := [None])
  }

  lemma FirstIsLearned(i: Inputs, t: Tick)
    requires Suitable(i) && !t.bLearned
    ensures var s := Initial(i.cfg);
            && !ForeignSource(s, i.own, i.first, false)
            && LearnClient(s, i.own, i.first, t) == s.(link := s.link.(client := Some(i.own)))
  {
  }

  lemma FirstIsRecorded(i: Inputs)
    requires Suitable(i)
    ensures var s := Initial(i.cfg);
            RecordObservation(s.(link := s.link.(client := Some(i.own))), ClientToServer, i.first, false, false, true, i.own, 0, true)
            == Recording(Learned(i), true)
  {
  }

  /** Forwarded, or held for delay. */
  ghost function AfterFirst(i: Inputs): State {
    var s := Learned(i);
    var p := Packet(i.cfg.server, i.first, 0);
    s.(core := if i.cfg.scenario == Undisturbed then Emit(s.core, ClientToServer, p)
               else HoldBack(s.core, ClientToServer, p, false))
  }

  lemma FirstIsProcessed(i: Inputs)
    requires Suitable(i)
    ensures var s := Learned(i);
            Process(s.core, ClientToServer, Packet(i.cfg.server, i.first, 0), s.core.journal[0].action, true, true)
            == Outcome(AfterFirst(i).core, true)
  {
  }

  lemma FirstTurn(i: Inputs)
    requires Suitable(i)
    ensures Iterate(Initial(i.cfg), Turn(false, Datagram(i.own, i.first), true)) == AfterFirst(i)
  {
    var t := Turn(false, Datagram(i.own, i.first), true);
    FirstIsLearned(i, t);
    FirstIsRecorded(i);
    FirstIsProcessed(i);
    hide RecordObservation, LearnClient, ForeignSource, Process, HoldBack, Emit, Record;
    ClientTurnOnly(Initial(i.cfg), Datagram(i.own, i.first), true);
  }

  // ---- a foreign datagram ----

  ghost function ForeignSeen(i: Inputs, auxiliary: bool): Observation {
    Observation(ClientToServer, i.second, true, auxiliary, 0)
  }

  lemma ForeignIsRecorded(i: Inputs, auxiliary: bool)
    requires Suitable(i)
    ensures var s := AfterFirst(i);
            && ForeignSource(s, i.foreign, i.second, false)
            && RecordObservation(s, ClientToServer, i.second, true, auxiliary, true, i.foreign, 0, true)
               == Recording(s.(core := Record(s.core, ForeignSeen(i, auxiliary), Forward), owners := [None] + [None]), true)
  {
  }

  lemma ForeignTurn(i: Inputs)
    requires Suitable(i)
    ensures var s := AfterFirst(i);
            var auxiliary := i.cfg.functional && IsAuxiliaryQuery(i.second);
            var s' := Iterate(s, Turn(false, Datagram(i.foreign, i.second), true));
            && s'.core == Record(s.core, ForeignSeen(i, auxiliary), Forward)
            && s'.link == s.link && s'.cfg == s.cfg && !s'.status.storeFailed
            && s'.phase == if auxiliary then Looping else Left
  {
    var s := AfterFirst(i);
    var auxiliary := i.cfg.functional && IsAuxiliaryQuery(i.second);
    ForeignIsRecorded(i, auxiliary);
    hide RecordObservation, ForeignSource, HoldBack, Emit, Record, IsAuxiliaryQuery;
    ClientTurnOnly(s, Datagram(i.foreign, i.second), true);
  }

  // ---- the runs ----

  /** A functional capture that stops, incomplete, after an admitted auxiliary query: its journal
      is refused. */
  lemma AuxiliaryBlocksIncomplete(i: Inputs, t: Transition)
    requires Suitable(i) && i.cfg.functional && i.cfg.scenario == Undisturbed && IsAuxiliaryQuery(i.second)
    ensures var s := Finish(i.cfg, [Turn(false, Datagram(i.own, i.first), true),
                                    Turn(false, Datagram(i.foreign, i.second), true),
                                    Turn(true, Nothing, true)], true, true);
            && s.phase == Left && !Complete(s, t)
            && !Acceptable(s.core.journal, PublicationLimits(i.cfg.limits), IncompleteCapture)
  {
    var a, b, c := Turn(false, Datagram(i.own, i.first), true), Turn(false, Datagram(i.foreign, i.second), true), Turn(true, Nothing, true);
    FirstTurn(i);
    ForeignTurn(i);
    RunThree(Initial(i.cfg), a, b, c);
    RunTwo(AfterFirst(i), b, c);
    var s2 := Iterate(AfterFirst(i), b);
    assert Iterate(s2, c) == s2.(phase := Left);
    assert s2.core.journal[1].action == AuxiliaryObservation && s2.core.counters.serverPackets == 0;
    assert s2.core.heldClient.None? && s2.core.heldServer.None?;
    assert !HoldStateAccepted(s2.core.journal[1], IncompleteCapture);
    assert !EmissionsAccepted(s2.core.journal, 1, IncompleteCapture);
    hide Iterate, Record, Emit, HoldBack;
  }

  lemma ForeignAfterDelay(i: Inputs)
    requires Suitable(i) && i.cfg.scenario == DelayClientMove && !i.cfg.functional
    ensures var s := Run(Initial(i.cfg), [Turn(false, Datagram(i.own, i.first), true), Turn(false, Datagram(i.foreign, i.second), true)]);
            && s.phase == Left && !s.status.storeFailed
            && s.core == Record(AfterFirst(i).core, ForeignSeen(i, false), Forward)
  {
    hide Record, Iterate, AfterFirst;
    FirstTurn(i);
    ForeignTurn(i);
    RunTwo(Initial(i.cfg), Turn(false, Datagram(i.own, i.first), true), Turn(false, Datagram(i.foreign, i.second), true));
    assert AfterFirst(i).phase == Looping by { AfterFirstLoops(i); }
  }

  lemma AfterFirstLoops(i: Inputs)
    ensures AfterFirst(i).phase == Looping
  {
  }

  /** What the flush makes of the delayed datagram that is followed by a foreign one. */
  lemma FlushAfterForeign(i: Inputs, sent: bool)
    requires Suitable(i) && i.cfg.scenario == DelayClientMove
    ensures var c := Record(AfterFirst(i).core, ForeignSeen(i, false), Forward);
            && c.heldServer.None? && c.heldClient.Some? && c.heldClient.value.index == 0 && !c.heldClient.value.reorder
            && FlushSlot(c, ClientToServer, c.heldClient.value.destination, sent).core.heldServer.None?
            && FlushSlot(c, ClientToServer, c.heldClient.value.destination, sent).ok == sent
    ensures var c := Record(AfterFirst(i).core, ForeignSeen(i, false), Forward);
            var j := FlushSlot(c, ClientToServer, c.heldClient.value.destination, sent).core.journal;
            && |j| == 2 && j[0].direction == j[1].direction
            && j[0].action == HoldForDelay && j[0].holdState == Released && !j[0].wrongSource
            && j[1].wrongSource && j[1].action == Drop
  {
  }

  /** A delayed datagram released by the deadline after a foreign datagram ended the loop: the
      journal is refused whether or not the release could be sent. */
  lemma ForeignSuccessorBlocks(i: Inputs, sent: bool)
    requires Suitable(i) && i.cfg.scenario == DelayClientMove && !i.cfg.functional
    ensures var s := Finish(i.cfg, [Turn(false, Datagram(i.own, i.first), true), Turn(false, Datagram(i.foreign, i.second), true)], sent, true);
            && s.phase == (if sent then Left else Terminal(11))
            && !Acceptable(s.core.journal, PublicationLimits(i.cfg.limits), IncompleteCapture)
  {
    ForeignAfterDelay(i);
    FlushAfterForeign(i, sent);
    var s := Run(Initial(i.cfg), [Turn(false, Datagram(i.own, i.first), true), Turn(false, Datagram(i.foreign, i.second), true)]);
    hide Run, Record, AfterFirst, FlushSlot;
    var j := FlushSlot(s.core, ClientToServer, s.core.heldClient.value.destination, sent).core.journal;
    assert FirstSameDirection(j, 0, 1);
    assert !ReleaseAccepted(j, 0);
  }

  // ---- a release that fails half way ----

  ghost function SecondSeen(i: Inputs): Observation { Observation(ClientToServer, i.second, false, false, 0) }

  lemma SecondIsRecorded(i: Inputs, t: Tick)
    requires Suitable(i) && i.cfg.scenario == DelayClientMove && !t.bLearned
    ensures var s := AfterFirst(i);
            && !ForeignSource(s, i.own, i.second, false)
            && LearnClient(s, i.own, i.second, t) == s
            && RecordObservation(s, ClientToServer, i.second, false, false, true, i.own, 0, true)
               == Recording(s.(core := Record(s.core, SecondSeen(i), Forward), owners := [None] + [None]), true)
  {
  }

  lemma HalfRelease(i: Inputs)
    requires Suitable(i) && i.cfg.scenario == DelayClientMove
    ensures var r := Record(AfterFirst(i).core, SecondSeen(i), Forward);
            && |r.journal| == 2 && |AfterFirst(i).core.journal| == 1
            && var done := Process(r, ClientToServer, Packet(i.cfg.server, i.second, 1), r.journal[1].action, true, false);
               && !done.ok && |done.core.journal| == 2
               && done.core.journal[0].holdState == Held && |done.core.journal[0].emitted| == 1
               && done.core.journal[0].action == HoldForDelay
  {
  }

  /** The held datagram leaves, the forward that releases it does not: the entry stays held, and
      the journal is refused. */
  lemma HalfReleaseBlocks(i: Inputs)
    requires Suitable(i) && i.cfg.scenario == DelayClientMove
    ensures var s := Finish(i.cfg, [Turn(false, Datagram(i.own, i.first), true), Turn(false, Datagram(i.own, i.second), false)], true, true);
            && s.phase == Terminal(8)
            && !Acceptable(s.core.journal, PublicationLimits(i.cfg.limits), IncompleteCapture)
  {
    var a, b := Turn(false, Datagram(i.own, i.first), true), Turn(false, Datagram(i.own, i.second), false);
    FirstTurn(i);
    AfterFirstLoops(i);
    RunTwo(Initial(i.cfg), a, b);
    HalfReleaseTurn(i);
    hide Iterate, AfterFirst;
    var j := Iterate(AfterFirst(i), b).core.journal;
    assert !EmissionsAccepted(j, 0, IncompleteCapture);
  }

  lemma HalfReleaseTurn(i: Inputs)
    requires Suitable(i) && i.cfg.scenario == DelayClientMove
    ensures var s := Iterate(AfterFirst(i), Turn(false, Datagram(i.own, i.second), false));
            && s.phase == Terminal(8) && |s.core.journal| == 2
            && s.core.journal[0].holdState == Held && |s.core.journal[0].emitted| == 1
            && s.core.journal[0].action == HoldForDelay
  {
    SecondIsRecorded(i, Turn(false, Datagram(i.own, i.second), false));
    HalfRelease(i);
    AfterFirstLoops(i);
    assert AfterFirst(i).cfg == i.cfg;
    hide RecordObservation, LearnClient, ForeignSource, Process, AfterFirst, Record;
    ClientTurnOnly(AfterFirst(i), Datagram(i.own, i.second), false);
  }

  // ---- nothing observed ----

  /** A capture that ends before any datagram: no policy accepts its empty journal. */
  lemma EmptyJournalBlocks(cfg: Config, policy: Policy)
    ensures var s := Finish(cfg, [Turn(true, Nothing, true)], true, true);
            && s.phase == Left && s.core.journal == []
            && !Acceptable(s.core.journal, PublicationLimits(cfg.limits), policy)
  {
    var s, t := Initial(cfg), Turn(true, Nothing, true);
    assert Iterate(s, t) == s.(phase := Left);
    hide Iterate;
    assert [t][1..] == [];
    assert Run(s, [t]) == Run(Iterate(s, t), []);
  }

  // ---- a deadline release that could not be sent ----

  /** A turn in which one datagram of the server arrives, and is sent on. */
  function ServerTurn(server: Address, payload: string): Tick {
    Turn(false, Nothing, true).(fromServer := Datagram(server, payload))
  }

  ghost function ServerSeen(i: Inputs): Observation { Observation(ServerToClient, i.second, false, false, 0) }

  /** After the delayed datagram, one of the server has been sent to the client. */
  ghost function AfterServer(i: Inputs): State {
    var s := AfterFirst(i);
    s.(core := Emit(Record(s.core, ServerSeen(i), Forward), ServerToClient, Packet(i.own, i.second, |s.core.journal|)),
       owners := [None] + [None])
  }

  lemma ServerIsRecorded(i: Inputs)
    requires Suitable(i) && i.cfg.scenario == DelayClientMove
    ensures var s := AfterFirst(i);
            RecordObservation(s, ServerToClient, i.second, false, false, true, i.own, 0, true)
            == Recording(s.(core := Record(s.core, ServerSeen(i), Forward), owners := [None] + [None]), true)
  {
  }

  lemma ServerIsSent(i: Inputs)
    requires Suitable(i) && i.cfg.scenario == DelayClientMove
    ensures var s := AfterFirst(i);
            var r, p := Record(s.core, ServerSeen(i), Forward), Packet(i.own, i.second, |s.core.journal|);
            Process(r, ServerToClient, p, r.journal[p.index].action, true, true)
            == Outcome(Emit(r, ServerToClient, p), true)
  {
  }

  lemma ServerIsRelayed(i: Inputs)
    requires Suitable(i) && i.cfg.scenario == DelayClientMove
    ensures Relay(AfterFirst(i), ServerToClient, i.own, i.second, true, i.own, 0, true, true, true, 10) == AfterServer(i)
  {
    ServerIsRecorded(i);
    ServerIsSent(i);
    hide RecordObservation, Process, AfterFirst, Record, Emit;
  }

  lemma FirstState(i: Inputs)
    requires Suitable(i)
    ensures var s := AfterFirst(i);
            && s.phase == Looping && s.cfg == i.cfg && s.link == Initial(i.cfg).link.(client := Some(i.own))
            && s.status == Initial(i.cfg).status
  {
  }

  lemma ServerArrives(i: Inputs)
    requires Suitable(i) && i.cfg.scenario == DelayClientMove
    ensures AfterFirst(i).phase == Looping
    ensures Iterate(AfterFirst(i), ServerTurn(i.cfg.server, i.second)) == AfterServer(i)
  {
    FirstState(i);
    ServerIsRelayed(i);
    hide AfterFirst, Record, Emit, Relay;
  }

  lemma ServerState(i: Inputs)
    requires Suitable(i) && i.cfg.scenario == DelayClientMove
    ensures var s := AfterServer(i);
            && s.phase == Looping && !s.status.storeFailed && |s.core.journal| == 2 && s.core.heldServer.None?
            && s.core.heldClient.Some? && s.core.heldClient.value.index == 0 && !s.core.heldClient.value.reorder
            && s.core.journal[0].action == HoldForDelay && s.core.journal[0].emitted == []
  {
  }

  lemma UnsentFlush(c: Core, destination: Address)
    requires c.heldClient.Some?
    ensures var r, h := FlushSlot(c, ClientToServer, destination, false), c.heldClient.value;
            && !r.ok && r.core.journal == c.journal[h.index := c.journal[h.index].(holdState := if h.reorder then Unresolved else Released)]
  {
  }

  lemma DelayedUntilDeadline(i: Inputs)
    requires Suitable(i) && i.cfg.scenario == DelayClientMove
    ensures Run(Initial(i.cfg), [Turn(false, Datagram(i.own, i.first), true), ServerTurn(i.cfg.server, i.second),
                                 Turn(true, Nothing, true)]) == AfterServer(i).(phase := Left)
  {
    var a, b, c := Turn(false, Datagram(i.own, i.first), true), ServerTurn(i.cfg.server, i.second), Turn(true, Nothing, true);
    FirstTurn(i);
    ServerArrives(i);
    ServerState(i);
    assert Iterate(AfterServer(i), c) == AfterServer(i).(phase := Left);
    hide Iterate, AfterFirst, AfterServer, Run;
    RunThree(Initial(i.cfg), a, b, c);
    RunTwo(AfterFirst(i), b, c);
  }

  lemma UnsentIsRefused(j: seq<Entry>, l: JournalLimits)
    requires |j| == 2 && j[0].action == HoldForDelay && j[0].holdState == Released && j[0].emitted == []
    ensures !Acceptable(j, l, IncompleteCapture)
  {
    assert !EmissionsAccepted(j, 0, IncompleteCapture);
  }

  /** The deadline releases the delayed datagram but cannot send it, and the server's datagram came
      after it: the entry claims a release without an emission, and the journal is refused. */
  lemma UnsentReleaseBlocks(i: Inputs)
    requires Suitable(i) && i.cfg.scenario == DelayClientMove
    ensures var s := Finish(i.cfg, [Turn(false, Datagram(i.own, i.first), true), ServerTurn(i.cfg.server, i.second),
                                    Turn(true, Nothing, true)], false, true);
            && s.phase == Terminal(11)
            && !Acceptable(s.core.journal, PublicationLimits(i.cfg.limits), IncompleteCapture)
  {
    DelayedUntilDeadline(i);
    ServerState(i);
    hide Run, AfterServer, FlushSlot, Acceptable;
    var c := AfterServer(i).core;
    UnsentFlush(c, c.heldClient.value.destination);
    UnsentIsRefused(FlushSlot(c, ClientToServer, c.heldClient.value.destination, false).core.journal,
                    PublicationLimits(i.cfg.limits));
  }
}
