/** Captures that are complete: for each scenario a run, so that what is proved of complete captures is
    not proved of nothing. */
module RelayExamples {
  import opened Common
  import opened RelayTypes
  import opened RelayCore
  import opened RelayLedger
  import opened RelaySettled
  import opened RelayTallies
  import opened RelayOrder
  import opened RelayRuns
  import opened RelayMachine
  import opened RelayGenerations
  import opened RelayHolds
  import opened RelayBudget
  import opened RelayFinal
  import opened RelayInvariant
  import opened RelaySafety
  import opened RelayVerdict
  import opened RelayPublication
  import opened RelayTurns
  import opened RelayCompletion

  // ---- turns ----

  /** A turn in which nothing happens and everything would succeed. */
  function Idle(): Tick {
    Tick(false, NotSignaled,
         NotSignaled, true, true, true, true,
         Nothing, false, true, 0, true, true, true,
         NotSignaled,
         Nothing, ToRetiredA, 0, true, true, true,
         false, true, true)
  }

  function FromClient(source: Address, payload: string): Tick { Idle().(fromClient := Datagram(source, payload)) }
  function FromServer(server: Address, payload: string, route: Route): Tick {
    Idle().(fromServer := Datagram(server, payload), route := route)
  }
  function Signal(): Tick { Idle().(signal := Signaled) }
  function Quiet(): Tick { Idle().(quietElapsed := true) }
  function Deadline(): Tick { Idle().(deadline := true) }

  // ---- states of a run in which nothing goes wrong ----

  datatype Seen = Seen(direction: Direction, payload: string, owner: Option<Attribution>)

  /** Room for sixteen of the largest datagrams in each direction. */
  predicate Spacious(cfg: Config) {
    var l := cfg.limits;
    && ValidLimits(l) && 16 <= l.maxClientPackets && 16 <= l.maxServerPackets && 16 * l.maxPayload <= l.maxRawBytes
  }

  /** The relay has seen exactly these datagrams, and none from a wrong source. */
  ghost predicate Traced(s: State, seen: seq<Seen>) {
    && Invariant(s) && s.phase == Looping && Spacious(s.cfg)
    && s.status.limitReached.None? && !s.status.wrongSource && !s.status.storeFailed
    && Entries(s.core.journal, s.owners, seen)
  }

  ghost predicate Entries(j: seq<Entry>, owners: Owners, seen: seq<Seen>) {
    && |j| == |seen| == |owners|
    && forall i :: 0 <= i < |j| ==>
         j[i].direction == seen[i].direction && j[i].payload == seen[i].payload && !j[i].wrongSource && owners[i] == seen[i].owner
  }

  lemma {:induction false} FewBytes(j: seq<Entry>, size: nat)
    requires forall i :: 0 <= i < |j| ==> |j[i].payload| <= size
    ensures CountBytes(j) <= |j| * size
  {
    if j != [] {
      FewBytes(j[..|j| - 1], size);
      assert |j| * size == (|j| - 1) * size + size;
    }
  }

  lemma {:induction false} FewOfDirection(j: seq<Entry>, d: Direction)
    ensures CountDirection(j, d) <= |j|
  {
    if j != [] { FewOfDirection(j[..|j| - 1], d); }
  }

  lemma Fifteen(n: nat, size: nat)
    requires n <= 15
    ensures n * size + size <= 16 * size
  {
  }

  lemma HasRoom(s: State, seen: seq<Seen>, d: Direction, payload: string)
    requires Traced(s, seen) && |seen| <= 15 && |payload| <= s.cfg.limits.maxPayload
    ensures Recordable(s, d, payload, true) && NoOverflow(s.core, d, |payload|)
  {
    var j := s.core.journal;
    NeverOverflows(s, d, payload);
    forall i | 0 <= i < |j| ensures |j[i].payload| <= s.cfg.limits.maxPayload {
      assert EntryWithin(s.cfg, s.status.elapsed, j[i]);
    }
    FewBytes(j, s.cfg.limits.maxPayload);
    FewOfDirection(j, d);
    Fifteen(|j|, s.cfg.limits.maxPayload);
    hide CoreLive, Final, Attributed, LinkSound, SlotsSound, Within;
    RecordableExactly(s, d, payload, true);
  }

  lemma EntriesGrow(j: seq<Entry>, k: seq<Entry>, owners: Owners, seen: seq<Seen>, d: Direction, payload: string,
                    owner: Option<Attribution>, time: nat)
    requires Entries(j, owners, seen) && OneMore(j, k, d, payload, time)
    ensures Entries(k, owners + [owner], seen + [Seen(d, payload, owner)])
  {
    forall i | 0 <= i < |j| ensures k[i].direction == j[i].direction && k[i].payload == j[i].payload && k[i].wrongSource == j[i].wrongSource {
      assert Face(k[..|j|][i]) == Face(j[i]);
    }
  }

  // ---- a turn with the client's datagram ----

  lemma ClientOnly(s: State, t: Tick)
    requires s.phase == Looping && t == Idle().(fromClient := t.fromClient)
    ensures ClientHalf(s, t.(fromClient := Nothing)) == RelayMachine.ClientTurn(s, true)
  {
  }

  /** When nothing else happens the turn ends with the client's half. */
  lemma NothingElse(s: State, t: Tick)
    requires s.phase == Looping && t == Idle().(fromClient := t.fromClient)
    requires var half := ClientHalf(s, t);
             half.next ==> && half.state.phase == Looping && half.state.status.limitReached.None? && !half.state.status.wrongSource
    ensures Iterate(s, t) == ClientHalf(s, t).state
  {
    hide ClientHalf;
  }

  lemma OutcomeOfClient(m: State, n: State, t: Tick, source: Address, payload: string, owner: Option<Attribution>)
    requires ClientOutcome(m, n, t, source, payload) && m.phase == Looping
    requires ClientCourse(m, source, payload, t) == Towards(m.cfg.server, owner)
    requires Recordable(m, ClientToServer, payload, t.clientStored)
    requires t.clientSent1 && t.clientSent2 && NoOverflow(m.core, ClientToServer, |payload|)
    ensures n.phase == Looping && n.status == m.status.(elapsed := n.status.elapsed) && n.owners == m.owners + [owner]
    ensures exists time :: OneMore(m.core.journal, n.core.journal, ClientToServer, payload, time)
    ensures n.link == m.link.(client := Some(source), current := if owner.Some? then owner.value.generation else m.link.current,
                              distinct := n.link.distinct)
    ensures Waiting(n.core, ClientToServer)
            == if KeptBack(m.cfg, ClientToServer, CountDirection(m.core.journal, ClientToServer) + 1)
               then [Emission(ClientToServer, m.cfg.server, payload, |m.core.journal|)] else []
  {
    hide Sends, Leaving, OneMore, NoOverflow, ClientCourse, Recordable, KeptBack, Waiting, CountDirection;
    assert OneMore(m.core.journal, n.core.journal, ClientToServer, payload, CappedStamp(m.cfg, n.status.elapsed));
  }

  /** The client's next datagram is seen and relayed. */
  lemma ClientStep(s: State, seen: seq<Seen>, source: Address, payload: string, owner: Option<Attribution>)
    requires Traced(s, seen) && |seen| <= 15 && |payload| <= s.cfg.limits.maxPayload
    requires ClientCourse(s, source, payload, FromClient(source, payload)) == Towards(s.cfg.server, owner)
    ensures var n := Iterate(s, FromClient(source, payload));
            && Traced(n, seen + [Seen(ClientToServer, payload, owner)]) && n.cfg == s.cfg
            && n.link == s.link.(client := Some(source), current := if owner.Some? then owner.value.generation else s.link.current,
                                 distinct := n.link.distinct)
            && Waiting(n.core, ClientToServer)
               == if KeptBack(s.cfg, ClientToServer, CountDirection(s.core.journal, ClientToServer) + 1)
                  then [Emission(ClientToServer, s.cfg.server, payload, |seen|)] else []
  {
    var t := FromClient(source, payload);
    HasRoom(s, seen, ClientToServer, payload);
    ClientOnly(s, t);
    ClientDatagram(s, t, source, payload);
    hide Invariant, ClientOutcome, ClientCourse, ClientHalf, Iterate, Recordable, NoOverflow, Waiting, KeptBack, Entries, Spacious;
    var n := ClientHalf(s, t).state;
    OutcomeOfClient(s, n, t, source, payload, owner);
    NothingElse(s, t);
    IterateKeeps(s, t);
    var time :| OneMore(s.core.journal, n.core.journal, ClientToServer, payload, time);
    EntriesGrow(s.core.journal, n.core.journal, s.owners, seen, ClientToServer, payload, owner, time);
    assert |s.core.journal| == |seen| by { EntriesSize(s.core.journal, s.owners, seen); }
  }

  lemma EntriesSize(j: seq<Entry>, owners: Owners, seen: seq<Seen>)
    requires Entries(j, owners, seen)
    ensures |j| == |seen| == |owners|
  {
  }

  // ---- a turn with the server's datagram ----

  lemma ServerOnly(s: State, t: Tick)
    requires s.phase == Looping && t == Idle().(fromServer := t.fromServer, route := t.route)
    ensures ClientHalf(s, t) == RelayMachine.ClientTurn(s, true)
  {
  }

  lemma OutcomeOfServer(m: State, n: State, t: Tick, source: Address, payload: string, destination: Address,
                        owner: Option<Attribution>)
    requires m.link.prepared ==> m.link.retired.Some?
    requires ServerOutcome(m, n, t, source, payload) && n.phase == Looping
    requires ServerCourse(m, source, t.route) == Towards(destination, owner)
    requires Recordable(m, ServerToClient, payload, t.serverStored)
    ensures n.status == m.status.(elapsed := n.status.elapsed) && n.owners == m.owners + [owner]
    ensures exists time :: OneMore(m.core.journal, n.core.journal, ServerToClient, payload, time)
    ensures Waiting(n.core, ServerToClient)
            == if KeptBack(m.cfg, ServerToClient, CountDirection(m.core.journal, ServerToClient) + 1)
               then [Emission(ServerToClient, destination, payload, |m.core.journal|)] else []
  {
    hide Sends, Leaving, OneMore, NoOverflow, ServerCourse, Recordable, KeptBack, Waiting, CountDirection;
    assert OneMore(m.core.journal, n.core.journal, ServerToClient, payload, CappedStamp(m.cfg, n.status.elapsed));
  }

  /** The server's next datagram is seen and relayed. */
  lemma ServerStep(s: State, seen: seq<Seen>, payload: string, route: Route, destination: Address, owner: Option<Attribution>)
    requires Traced(s, seen) && |seen| <= 15 && |payload| <= s.cfg.limits.maxPayload
    requires s.link.prepared ==> s.link.retired.Some?
    requires ServerCourse(s, s.cfg.server, route) == Towards(destination, owner)
    ensures var n := Iterate(s, FromServer(s.cfg.server, payload, route));
            && Traced(n, seen + [Seen(ServerToClient, payload, owner)]) && n.cfg == s.cfg && n.link == s.link
            && Waiting(n.core, ServerToClient)
               == if KeptBack(s.cfg, ServerToClient, CountDirection(s.core.journal, ServerToClient) + 1)
                  then [Emission(ServerToClient, destination, payload, |seen|)] else []
  {
    var t := FromServer(s.cfg.server, payload, route);
    HasRoom(s, seen, ServerToClient, payload);
    ServerOnly(s, t);
    ServerDatagram(s, t, s.cfg.server, payload);
    ServerGoesOn(s, t, s.cfg.server, payload);
    hide Invariant, ServerOutcome, ServerCourse, ClientHalf, Iterate, Recordable, NoOverflow, Waiting, KeptBack, Entries, Spacious;
    var n := Iterate(s, t);
    OutcomeOfServer(s, n, t, s.cfg.server, payload, destination, owner);
    IterateKeeps(s, t);
    var time :| OneMore(s.core.journal, n.core.journal, ServerToClient, payload, time);
    EntriesGrow(s.core.journal, n.core.journal, s.owners, seen, ServerToClient, payload, owner, time);
    assert |s.core.journal| == |seen| by { EntriesSize(s.core.journal, s.owners, seen); }
  }

  // ---- the end of a run ----

  /** Nothing has been seen, and nothing has gone wrong. */
  ghost predicate Blank(s: State) {
    Fresh(s) && s.status.limitReached.None? && !s.status.wrongSource && !s.status.storeFailed
  }

  lemma Begins(cfg: Config)
    ensures Blank(Initial(cfg)) && Initial(cfg).cfg == cfg
  {
    hide Fresh;
    InitialIsFresh(cfg);
  }

  lemma Starts(s: State, seen: seq<Seen>)
    requires Blank(s) && Spacious(s.cfg) && |seen| == 0
    ensures s.phase == Looping && Traced(s, seen) && s.link == Link(None, None, false, 0, false, false, false, false, false)
  {
    hide Invariant, Spacious;
    FreshInvariant(s);
  }

  lemma OneTurn(s: State, t: Tick, rest: seq<Tick>)
    requires s.phase == Looping
    ensures Run(s, [t] + rest) == Run(Iterate(s, t), rest)
  {
    assert ([t] + rest)[1..] == rest;
  }

  lemma LastTurn(s: State)
    requires s.phase == Looping
    ensures Run(s, [Deadline()]) == s.(phase := Left)
  {
    OneTurn(s, Deadline(), []);
    assert [Deadline()] == [Deadline()] + [];
  }

  predicate NothingWaits(c: Core) { c.heldClient.None? && c.heldServer.None? }

  lemma NothingToFlush(s: State, clientSent: bool, serverSent: bool)
    requires s.phase == Left && NothingWaits(s.core) && !s.status.storeFailed
    ensures Flush(s, clientSent, serverSent) == s
  {
  }

  /** Every datagram that was kept back has been released. */
  ghost predicate Released(j: seq<Entry>) {
    forall i :: 0 <= i < |j| ==> j[i].holdState == if IsHold(j[i].action) then HoldState.Released else NotHeld
  }

  lemma LiveIsReleased(c: Core)
    requires CoreLive(c) && NothingWaits(c)
    ensures Released(c.journal)
  {
    hide Ledger, InOrder, Tallied, HoldHistory, Balanced;
    var j := c.journal;
    forall i | 0 <= i < |j| ensures j[i].holdState == if IsHold(j[i].action) then HoldState.Released else NotHeld {
      assert EntrySettled(j[i]);
      assert j[i].direction == ClientToServer || j[i].direction == ServerToClient;
    }
  }

  /** When nothing waits, that is so. */
  lemma AllReleased(s: State)
    requires Invariant(s) && s.phase == Looping && NothingWaits(s.core)
    ensures Released(s.core.journal)
  {
    hide Sound, CoreLive, Final, LinkLive, NothingWaits, Released;
    LiveIsReleased(s.core);
  }

  /** What a datagram at position i was to have done with it. */
  lemma ActionAt(s: State, seen: seq<Seen>, i: nat)
    requires Traced(s, seen) && i < |seen|
    ensures i < |s.core.journal|
    ensures var j := s.core.journal; j[i].action == CaptureAction(s.cfg.scenario, seen[i].direction,
                                                               CountDirection(j[..i + 1], seen[i].direction), s.cfg.perturbation)
  {
    var j := s.core.journal;
    hide CaptureAction, CoreLive, Final, LinkSound, SlotsSound, Attributed;
    assert EntryShape(j, i) && EntryWithin(s.cfg, s.status.elapsed, j[i]);
  }

  // ---- one run for every scenario but the reconnect ----

  /** Three datagrams and the deadline: the second of the direction that the scenario perturbs comes last. */
  function ThirdFromClient(scenario: Scenario): bool { scenario == DelayClientMove }

  function ThreeTicks(cfg: Config, source: Address, a: string, b: string, c: string): seq<Tick> {
    [FromClient(source, a)] + ([FromServer(cfg.server, b, ToRetiredA)] +
    ([if ThirdFromClient(cfg.scenario) then FromClient(source, c) else FromServer(cfg.server, c, ToRetiredA)] + [Deadline()]))
  }

  predicate Suited(cfg: Config, source: Address, a: string) {
    && Spacious(cfg) && !cfg.functional && cfg.perturbation == Perturbation(1, 1)
    && source.host == LOOPBACK_HOST && !IsAuxiliaryQuery(a)
  }

  predicate Fit(cfg: Config, payload: string) { |payload| <= cfg.limits.maxPayload }

  lemma NoneWaits(s: State)
    requires Invariant(s)
    requires s.cfg.scenario == ReorderServerRuntime ==> Waiting(s.core, ServerToClient) == []
    requires s.cfg.scenario == DelayClientMove ==> Waiting(s.core, ClientToServer) == []
    ensures NothingWaits(s.core)
  {
    hide Ledger, CoreLive, Final, LinkSound, SlotsSound, Attributed, WithinBudget;
    WaitingWasKept(s, ClientToServer);
    WaitingWasKept(s, ServerToClient);
  }

  /** The relay has seen these datagrams of a client at `source` and of the server. */
  ghost predicate Talking(s: State, source: Address, seen: seq<Seen>) {
    Traced(s, seen) && s.link.client == Some(source) && !s.link.prepared
  }

  lemma Talks(s: State, source: Address, seen: seq<Seen>)
    requires Talking(s, source, seen)
    ensures Traced(s, seen) && s.link.client == Some(source) && !s.link.prepared && s.phase == Looping
  {
    hide Invariant, Entries, Spacious;
  }

  lemma Talked(s: State, source: Address, seen: seq<Seen>)
    requires Traced(s, seen) && s.link.client == Some(source) && !s.link.prepared
    ensures Talking(s, source, seen)
  {
  }

  lemma CourseOfPlainClient(s: State, source: Address, payload: string, t: Tick)
    requires s.cfg.scenario != Reconnect && source.host == LOOPBACK_HOST
    requires s.link.client == Some(source) || (s.link.client.None? && !IsAuxiliaryQuery(payload))
    ensures ClientCourse(s, source, payload, t) == Towards(s.cfg.server, None)
  {
  }

  lemma CourseOfPlainServer(s: State, source: Address)
    requires s.cfg.scenario != Reconnect && s.link.client == Some(source) && !s.link.prepared
    ensures ServerCourse(s, s.cfg.server, ToRetiredA) == Towards(source, None)
  {
  }

  lemma FirstDatagram(cfg: Config, source: Address, a: string)
    requires Suited(cfg, source, a) && cfg.scenario != Reconnect && Fit(cfg, a)
    ensures Initial(cfg).phase == Looping
    ensures var n := Iterate(Initial(cfg), FromClient(source, a));
            Talking(n, source, [Seen(ClientToServer, a, None)]) && n.cfg == cfg
  {
    var s, t := Initial(cfg), FromClient(source, a);
    hide Traced, ClientCourse, Iterate, Waiting, KeptBack, Initial, Spacious, FromClient, IsAuxiliaryQuery, Invariant, Entries;
    Begins(cfg);
    Starts(s, []);
    CourseOfPlainClient(s, source, a, t);
    ClientStep(s, [], source, a, None);
    assert [] + [Seen(ClientToServer, a, None)] == [Seen(ClientToServer, a, None)];
  }

  lemma ClientTalks(s: State, source: Address, seen: seq<Seen>, payload: string)
    requires Talking(s, source, seen) && s.cfg.scenario != Reconnect && |seen| <= 15 && Fit(s.cfg, payload)
    requires source.host == LOOPBACK_HOST
    ensures s.phase == Looping
    ensures var n := Iterate(s, FromClient(source, payload));
            && Talking(n, source, seen + [Seen(ClientToServer, payload, None)]) && n.cfg == s.cfg
            && (!KeptBack(s.cfg, ClientToServer, CountDirection(s.core.journal, ClientToServer) + 1) ==> Waiting(n.core, ClientToServer) == [])
  {
    hide Traced, ClientCourse, Iterate, Waiting, KeptBack, Spacious, FromClient, Talking, CountDirection, Invariant, Entries;
    Talks(s, source, seen);
    CourseOfPlainClient(s, source, payload, FromClient(source, payload));
    ClientStep(s, seen, source, payload, None);
    Talked(Iterate(s, FromClient(source, payload)), source, seen + [Seen(ClientToServer, payload, None)]);
  }

  lemma ServerTalks(s: State, source: Address, seen: seq<Seen>, payload: string)
    requires Talking(s, source, seen) && s.cfg.scenario != Reconnect && |seen| <= 15 && Fit(s.cfg, payload)
    ensures s.phase == Looping
    ensures var n := Iterate(s, FromServer(s.cfg.server, payload, ToRetiredA));
            && Talking(n, source, seen + [Seen(ServerToClient, payload, None)]) && n.cfg == s.cfg
            && (!KeptBack(s.cfg, ServerToClient, CountDirection(s.core.journal, ServerToClient) + 1) ==> Waiting(n.core, ServerToClient) == [])
  {
    hide Traced, ServerCourse, Iterate, Waiting, KeptBack, Spacious, FromServer, Talking, CountDirection, Invariant, Entries;
    Talks(s, source, seen);
    CourseOfPlainServer(s, source);
    ServerStep(s, seen, payload, ToRetiredA, source, None);
    Talked(Iterate(s, FromServer(s.cfg.server, payload, ToRetiredA)), source, seen + [Seen(ServerToClient, payload, None)]);
  }

  // ---- what three datagrams leave behind ----

  function Third(scenario: Scenario): Direction { if ThirdFromClient(scenario) then ClientToServer else ServerToClient }

  function ThreeSeen(scenario: Scenario, a: string, b: string, c: string): seq<Seen> {
    [Seen(ClientToServer, a, None), Seen(ServerToClient, b, None), Seen(Third(scenario), c, None)]
  }

  lemma TwoOrdinals(j: seq<Entry>)
    requires |j| >= 2 && j[0].direction == ClientToServer && j[1].direction == ServerToClient
    ensures CountDirection(j[..1], ClientToServer) == CountDirection(j[..2], ServerToClient) == 1
    ensures CountDirection(j[..2], ClientToServer) == 1
  {
    assert j[..2][..1] == j[..1] && j[..1][..0] == [] && j[..1][0] == j[0] && j[..2][1] == j[1];
    assert CountDirection(j[..1], ServerToClient) == 0 && CountDirection(j[..1], ClientToServer) == 1;
  }

  lemma ThirdOrdinal(j: seq<Entry>)
    requires |j| == 3 && j[0].direction == ClientToServer && j[1].direction == ServerToClient
    ensures CountDirection(j[..3], j[2].direction) == 2
  {
    TwoOrdinals(j);
    assert j[..3][..2] == j[..2];
  }

  /** What is done with each of the three. */
  function ThreeTreatments(scenario: Scenario): seq<Action> {
    match scenario
    case Undisturbed | Reconnect => [Forward, Forward, Forward]
    case DropServerRuntime => [Forward, Drop, Forward]
    case DropTwoServerRuntime => [Forward, Drop, Drop]
    case DuplicateServerRuntime => [Forward, Duplicate, Forward]
    case ReorderServerRuntime => [Forward, HoldForReorder, Forward]
    case DropClientMove => [Drop, Forward, Forward]
    case DelayClientMove => [HoldForDelay, Forward, Forward]
  }

  lemma Treated(scenario: Scenario, p: Perturbation)
    requires p == Perturbation(1, 1)
    ensures [CaptureAction(scenario, ClientToServer, 1, p), CaptureAction(scenario, ServerToClient, 1, p),
             CaptureAction(scenario, Third(scenario), 2, p)] == ThreeTreatments(scenario)
  {
  }

  /** The journal holds three datagrams: one of each direction, then another of the perturbed direction. */
  predicate Three(j: seq<Entry>, scenario: Scenario) {
    && |j| == 3 && j[0].direction == ClientToServer && j[1].direction == ServerToClient && j[2].direction == Third(scenario)
    && [j[0].action, j[1].action, j[2].action] == ThreeTreatments(scenario)
  }

  lemma ThreeActions(s: State, a: string, b: string, c: string)
    requires Traced(s, ThreeSeen(s.cfg.scenario, a, b, c)) && s.cfg.perturbation == Perturbation(1, 1)
    ensures Three(s.core.journal, s.cfg.scenario)
  {
    hide Traced, CountDirection, CaptureAction, ThreeTreatments, Invariant;
    var j, seen := s.core.journal, ThreeSeen(s.cfg.scenario, a, b, c);
    TraceAllowed(s, seen);
    assert seen[0].direction == ClientToServer && seen[1].direction == ServerToClient && seen[2].direction == Third(s.cfg.scenario);
    ActionAt(s, seen, 0);
    ActionAt(s, seen, 1);
    ActionAt(s, seen, 2);
    TwoOrdinals(j);
    ThirdOrdinal(j);
    Treated(s.cfg.scenario, s.cfg.perturbation);
  }

  function Differs(a: Action): nat { if a == Forward then 0 else 1 }

  lemma SizeWithout(s: set<int>, x: int)
    ensures |s| == |s - {x}| + if x in s then 1 else 0
  {
    if x !in s { assert s - {x} == s; }
  }

  lemma SizeOfThree(s: set<int>)
    requires forall x <- s :: 0 <= x < 3
    ensures |s| == (if 0 in s then 1 else 0) + (if 1 in s then 1 else 0) + (if 2 in s then 1 else 0)
  {
    SizeWithout(s, 0);
    var t := s - {0};
    SizeWithout(t, 1);
    var u := t - {1};
    SizeWithout(u, 2);
    forall x ensures x !in u - {2} { assert x in s ==> x == 0 || x == 1 || x == 2; }
    assert u - {2} == {};
  }

  lemma IsPerturbed(j: seq<Entry>, i: nat)
    requires i < |j|
    ensures i in Perturbed(j) <==> j[i].action != Forward && j[i].action != AuxiliaryObservation
  {
  }

  lemma PerturbedWithin(j: seq<Entry>)
    ensures forall x <- Perturbed(j) :: 0 <= x < |j|
  {
  }

  lemma PerturbedOfThree(j: seq<Entry>)
    requires |j| == 3 && j[0].action != AuxiliaryObservation && j[1].action != AuxiliaryObservation && j[2].action != AuxiliaryObservation
    ensures |Perturbed(j)| == Differs(j[0].action) + Differs(j[1].action) + Differs(j[2].action)
  {
    hide Perturbed;
    PerturbedWithin(j);
    SizeOfThree(Perturbed(j));
    IsPerturbed(j, 0);
    IsPerturbed(j, 1);
    IsPerturbed(j, 2);
  }

  lemma ThreeDiffer(scenario: Scenario)
    ensures var a := ThreeTreatments(scenario);
            Differs(a[0]) + Differs(a[1]) + Differs(a[2]) == ExpectedPerturbations(scenario)
    ensures ThreeTreatments(scenario)[0] != AuxiliaryObservation && ThreeTreatments(scenario)[1] != AuxiliaryObservation
            && ThreeTreatments(scenario)[2] != AuxiliaryObservation
  {
  }

  lemma ThreePerturbed(j: seq<Entry>, scenario: Scenario)
    requires Three(j, scenario)
    ensures |Perturbed(j)| == ExpectedPerturbations(scenario)
  {
    hide ThreeTreatments, ExpectedPerturbations, Perturbed, Differs;
    ThreeDiffer(scenario);
    var a := ThreeTreatments(scenario);
    assert j[0].action == a[0] && j[1].action == a[1] && j[2].action == a[2];
    PerturbedOfThree(j);
  }

  lemma TraceAllowed(s: State, seen: seq<Seen>)
    requires Traced(s, seen)
    ensures s.status.limitReached.None? && !s.status.wrongSource && !s.status.storeFailed && s.phase == Looping && Invariant(s)
    ensures |s.core.journal| == |seen| == |s.owners|
    ensures var j := s.core.journal; forall i :: 0 <= i < |j| ==>
              j[i].direction == seen[i].direction && j[i].payload == seen[i].payload && !j[i].wrongSource && s.owners[i] == seen[i].owner
  {
    hide Invariant, Spacious;
  }

  lemma ThreeShow(s: State, source: Address, a: string, b: string, c: string, t: RelayMachine.Transition)
    requires Talking(s, source, ThreeSeen(s.cfg.scenario, a, b, c)) && s.cfg.perturbation == Perturbation(1, 1)
    requires s.cfg.scenario != Reconnect && !s.cfg.functional && NothingWaits(s.core)
    ensures s.phase == Looping && Shows(s.(phase := Left), t)
  {
    hide Traced, Invariant, Talking, Perturbed, NothingWaits, Three, ThreeSeen, ExpectedPerturbations;
    var j, seen := s.core.journal, ThreeSeen(s.cfg.scenario, a, b, c);
    Talks(s, source, seen);
    ThreeActions(s, a, b, c);
    TraceAllowed(s, seen);
    AllReleased(s);
    ThreePerturbed(j, s.cfg.scenario);
    ThreeTravel(j, s.cfg.scenario);
  }

  lemma ThreeTravel(j: seq<Entry>, scenario: Scenario)
    requires Three(j, scenario) && Released(j)
    ensures (exists i :: Travels(j, i, ClientToServer)) && (exists i :: Travels(j, i, ServerToClient))
    ensures scenario == ReorderServerRuntime ==> ReorderDone(j)
  {
    assert Travels(j, 0, ClientToServer) && Travels(j, 1, ServerToClient);
    assert scenario == ReorderServerRuntime ==> ReleasedReorder(j[1]);
  }

  lemma SecondOfTwo(s: State, source: Address, b: string, a: string)
    requires Talking(s, source, [Seen(ClientToServer, a, None), Seen(ServerToClient, b, None)])
    ensures forall d :: CountDirection(s.core.journal, d) == 1
  {
    hide Traced, CountDirection, Talking, Invariant;
    var j, seen := s.core.journal, [Seen(ClientToServer, a, None), Seen(ServerToClient, b, None)];
    Talks(s, source, seen);
    TraceAllowed(s, seen);
    assert seen[0].direction == ClientToServer && seen[1].direction == ServerToClient;
    TwoOrdinals(j);
    assert j[..2] == j;
    forall d ensures CountDirection(j, d) == 1 { assert d == ClientToServer || d == ServerToClient; }
  }

  lemma SecondIsNotKept(cfg: Config, d: Direction)
    requires cfg.perturbation == Perturbation(1, 1)
    ensures !KeptBack(cfg, d, 2)
  {
  }

  lemma FinishAt(cfg: Config, ticks: seq<Tick>, s: State, seen: seq<Seen>, clientSent: bool, serverSent: bool)
    requires Run(Initial(cfg), ticks) == s.(phase := Left) && Traced(s, seen) && NothingWaits(s.core)
    ensures Finish(cfg, ticks, clientSent, serverSent) == s.(phase := Left)
  {
    hide Traced, NothingWaits, Run, Initial, Flush, Invariant;
    TraceAllowed(s, seen);
    NothingToFlush(s.(phase := Left), clientSent, serverSent);
  }

  lemma NothingIsLeft(s: State, source: Address, seen: seq<Seen>)
    requires Talking(s, source, seen)
    requires if s.cfg.scenario == DelayClientMove then Waiting(s.core, ClientToServer) == [] else Waiting(s.core, ServerToClient) == []
    ensures NothingWaits(s.core) && s.phase == Looping
  {
    hide Traced, Waiting, Invariant;
    Talks(s, source, seen);
    TraceAllowed(s, seen);
    NoneWaits(s);
  }

  lemma ThreeTurns(s: State, t1: Tick, t2: Tick, t3: Tick)
    requires s.phase == Looping && Iterate(s, t1).phase == Looping && Iterate(Iterate(s, t1), t2).phase == Looping
    requires Iterate(Iterate(Iterate(s, t1), t2), t3).phase == Looping
    ensures Run(s, [t1] + ([t2] + ([t3] + [Deadline()]))) == Iterate(Iterate(Iterate(s, t1), t2), t3).(phase := Left)
  {
    hide Iterate, Run;
    OneTurn(s, t1, [t2] + ([t3] + [Deadline()]));
    OneTurn(Iterate(s, t1), t2, [t3] + [Deadline()]);
    OneTurn(Iterate(Iterate(s, t1), t2), t3, [Deadline()]);
    LastTurn(Iterate(Iterate(Iterate(s, t1), t2), t3));
  }

  lemma TwoDatagrams(cfg: Config, source: Address, a: string, b: string) returns (s: State)
    requires Suited(cfg, source, a) && cfg.scenario != Reconnect && Fit(cfg, a) && Fit(cfg, b)
    ensures s.cfg == cfg && Talking(s, source, [Seen(ClientToServer, a, None), Seen(ServerToClient, b, None)]) && s.phase == Looping
    ensures var s0 := Initial(cfg);
            && s0.phase == Looping && Iterate(s0, FromClient(source, a)).phase == Looping
            && s == Iterate(Iterate(s0, FromClient(source, a)), FromServer(cfg.server, b, ToRetiredA))
  {
    hide Talking, Iterate, FromClient, FromServer, Waiting, KeptBack, Initial, Spacious, IsAuxiliaryQuery, CountDirection;
    FirstDatagram(cfg, source, a);
    var s1, one := Iterate(Initial(cfg), FromClient(source, a)), [Seen(ClientToServer, a, None)];
    ServerTalks(s1, source, one, b);
    s := Iterate(s1, FromServer(cfg.server, b, ToRetiredA));
    Talks(s, source, one + [Seen(ServerToClient, b, None)]);
    assert one + [Seen(ServerToClient, b, None)] == [Seen(ClientToServer, a, None), Seen(ServerToClient, b, None)];
  }

  lemma ThirdDatagram(s: State, source: Address, a: string, b: string, c: string, t: Tick)
    requires Talking(s, source, [Seen(ClientToServer, a, None), Seen(ServerToClient, b, None)]) && s.phase == Looping
    requires s.cfg.scenario != Reconnect && s.cfg.perturbation == Perturbation(1, 1) && source.host == LOOPBACK_HOST && Fit(s.cfg, c)
    requires t == if ThirdFromClient(s.cfg.scenario) then FromClient(source, c) else FromServer(s.cfg.server, c, ToRetiredA)
    ensures var n := Iterate(s, t);
            n.cfg == s.cfg && Talking(n, source, ThreeSeen(s.cfg.scenario, a, b, c)) && NothingWaits(n.core) && n.phase == Looping
  {
    hide Talking, Iterate, FromClient, FromServer, Waiting, KeptBack, Spacious, CountDirection, NothingWaits;
    var two, third := [Seen(ClientToServer, a, None), Seen(ServerToClient, b, None)], Third(s.cfg.scenario);
    SecondOfTwo(s, source, b, a);
    SecondIsNotKept(s.cfg, third);
    if ThirdFromClient(s.cfg.scenario) { ClientTalks(s, source, two, c); } else { ServerTalks(s, source, two, c); }
    assert two + [Seen(third, c, None)] == ThreeSeen(s.cfg.scenario, a, b, c);
    NothingIsLeft(Iterate(s, t), source, ThreeSeen(s.cfg.scenario, a, b, c));
  }

  lemma ThreeDatagrams(cfg: Config, source: Address, a: string, b: string, c: string) returns (s: State)
    requires Suited(cfg, source, a) && cfg.scenario != Reconnect && Fit(cfg, a) && Fit(cfg, b) && Fit(cfg, c)
    ensures s.cfg == cfg && Talking(s, source, ThreeSeen(cfg.scenario, a, b, c)) && NothingWaits(s.core) && s.phase == Looping
    ensures Run(Initial(cfg), ThreeTicks(cfg, source, a, b, c)) == s.(phase := Left)
  {
    hide Talking, Iterate, FromClient, FromServer, Run, Initial, Spacious, IsAuxiliaryQuery, NothingWaits, Deadline, ThreeSeen;
    var s2 := TwoDatagrams(cfg, source, a, b);
    var t3 := if ThirdFromClient(cfg.scenario) then FromClient(source, c) else FromServer(cfg.server, c, ToRetiredA);
    ThirdDatagram(s2, source, a, b, c, t3);
    s := Iterate(s2, t3);
    ThreeTurns(Initial(cfg), FromClient(source, a), FromServer(cfg.server, b, ToRetiredA), t3);
  }

  lemma StillThree(s: State, source: Address, seen: seq<Seen>)
    requires Talking(s, source, seen)
    ensures Traced(s, seen) && |s.core.journal| == |seen|
  {
    hide Traced, Invariant;
    Talks(s, source, seen);
    TraceAllowed(s, seen);
  }

  /** Whatever was sent, three datagrams and the deadline make a complete capture in every scenario that
      does not reconnect, when the first datagram of each direction is the one to perturb. */
  lemma EveryScenarioCompletes(cfg: Config, source: Address, a: string, b: string, c: string,
                               ticks: seq<Tick>, clientSent: bool, serverSent: bool, t: RelayMachine.Transition)
    requires Suited(cfg, source, a) && cfg.scenario != Reconnect && Fit(cfg, a) && Fit(cfg, b) && Fit(cfg, c)
    requires ticks == ThreeTicks(cfg, source, a, b, c)
    ensures var s := Finish(cfg, ticks, clientSent, serverSent);
            s.phase == Left && Complete(s, t) && |s.core.journal| == 3
  {
    var seen := ThreeSeen(cfg.scenario, a, b, c);
    var s := ThreeDatagrams(cfg, source, a, b, c);
    ThreeShow(s, source, a, b, c, t);
    StillThree(s, source, seen);
    hide Talking, Traced, Complete, Shows, Finish, NothingWaits;
    FinishAt(cfg, ticks, s, seen, clientSent, serverSent);
    VerdictExact(cfg, ticks, clientSent, serverSent, t);
  }

  // ---- a run that reconnects ----

  datatype Handshake = Handshake(source: Address, connect: string, accept: string, data: string)

  predicate Whole(cfg: Config, h: Handshake) {
    && h.source.host == LOOPBACK_HOST && IsConnect(h.connect) && IsAccept(h.accept) && !IsConnectionless(h.data)
    && Fit(cfg, h.connect) && Fit(cfg, h.accept) && Fit(cfg, h.data)
  }

  function SeenOf(h: Handshake, g: nat): seq<Seen> {
    var owner := Some(Attribution(g, h.source));
    [Seen(ClientToServer, h.connect, owner), Seen(ServerToClient, h.accept, owner), Seen(ServerToClient, h.data, owner)]
  }

  /** In the reconnect scenario the relay has seen these datagrams and its link is `l`. */
  ghost predicate Stage(s: State, cfg: Config, seen: seq<Seen>, l: Link) {
    Traced(s, seen) && s.cfg == cfg && cfg.scenario == Reconnect && s.link == l && NothingWaits(s.core)
  }

  lemma NothingEverWaits(s: State, seen: seq<Seen>)
    requires Traced(s, seen) && s.cfg.scenario == Reconnect
    ensures NothingWaits(s.core) && (s.link.distinct <==> s.link.current == 1) && (s.link.prepared ==> s.link.retired.Some?)
  {
    hide Ledger, CoreLive, Final, Attributed, WithinBudget, Entries, Spacious;
  }

  lemma ConnectIsPlain(payload: string)
    requires IsConnect(payload)
    ensures IsConnectionless(payload) && !IsAuxiliaryQuery(payload)
  {
    ConnectIsConnectionless(payload);
    assert payload[4] == (HEADER + "connect 48 ")[4];
  }

  lemma ReadStage(s: State, cfg: Config, seen: seq<Seen>, l: Link)
    requires Stage(s, cfg, seen, l)
    ensures Traced(s, seen) && s.cfg == cfg && s.link == l && NothingWaits(s.core) && s.phase == Looping && cfg.scenario == Reconnect
    ensures l.prepared ==> l.retired.Some?
  {
    hide Invariant, Entries, Spacious;
    NothingEverWaits(s, seen);
  }

  /** The client's next datagram, for generation g. */
  lemma ClientStage(s: State, cfg: Config, seen: seq<Seen>, l: Link, source: Address, payload: string, g: nat)
    requires Stage(s, cfg, seen, l) && |seen| <= 15 && Fit(cfg, payload) && source.host == LOOPBACK_HOST && IsConnect(payload)
    requires l.client.None? && g == (if l.completed then 1 else 0) && (l.completed ==> l.retired != Some(source))
    ensures s.phase == Looping
    ensures Stage(Iterate(s, FromClient(source, payload)), cfg, seen + [Seen(ClientToServer, payload, Some(Attribution(g, source)))],
                  l.(client := Some(source), current := g, distinct := g == 1))
  {
    hide Traced, ClientCourse, Iterate, Waiting, KeptBack, FromClient, Stage, NothingWaits, IsConnect, IsConnectionless, IsAuxiliaryQuery, CountDirection;
    ReadStage(s, cfg, seen, l);
    ConnectIsPlain(payload);
    ClientIsCounted(s, source, payload, g);
    var owner := Some(Attribution(g, source));
    ClientStep(s, seen, source, payload, owner);
    var n := Iterate(s, FromClient(source, payload));
    NothingEverWaits(n, seen + [Seen(ClientToServer, payload, owner)]);
    AtStage(n, cfg, seen + [Seen(ClientToServer, payload, owner)], n.link);
  }

  lemma AtStage(s: State, cfg: Config, seen: seq<Seen>, l: Link)
    requires Traced(s, seen) && s.cfg == cfg && cfg.scenario == Reconnect && s.link == l && NothingWaits(s.core)
    ensures Stage(s, cfg, seen, l)
  {
  }

  lemma ClientIsCounted(s: State, source: Address, payload: string, g: nat)
    requires s.cfg.scenario == Reconnect && source.host == LOOPBACK_HOST && IsConnectionless(payload) && !IsAuxiliaryQuery(payload)
    requires s.link.client.None? && g == (if s.link.completed then 1 else 0) && (s.link.completed ==> s.link.retired != Some(source))
    ensures ClientCourse(s, source, payload, FromClient(source, payload)) == Towards(s.cfg.server, Some(Attribution(g, source)))
  {
  }

  lemma ServerIsCounted(s: State, source: Address, route: Route, g: nat)
    requires s.cfg.scenario == Reconnect && s.link.client == Some(source) && (s.link.prepared ==> s.link.retired.Some?)
    requires if g == 0 then !s.link.prepared else g == 1 && s.link.prepared && s.link.requested && s.link.completed && route == ToB
    ensures ServerCourse(s, s.cfg.server, route) == Towards(source, Some(Attribution(g, source)))
  {
  }

  /** The server's next datagram, for generation g. */
  lemma ServerStage(s: State, cfg: Config, seen: seq<Seen>, l: Link, source: Address, payload: string, route: Route, g: nat)
    requires Stage(s, cfg, seen, l) && |seen| <= 15 && Fit(cfg, payload) && l.client == Some(source)
    requires if g == 0 then !l.prepared else g == 1 && l.prepared && l.requested && l.completed && route == ToB
    ensures s.phase == Looping
    ensures Stage(Iterate(s, FromServer(cfg.server, payload, route)), cfg,
                  seen + [Seen(ServerToClient, payload, Some(Attribution(g, source)))], l)
  {
    hide Traced, ServerCourse, Iterate, Waiting, KeptBack, FromServer, Stage, NothingWaits, CountDirection;
    ReadStage(s, cfg, seen, l);
    ServerIsCounted(s, source, route, g);
    var owner := Some(Attribution(g, source));
    ServerStep(s, seen, payload, route, source, owner);
    var n := Iterate(s, FromServer(cfg.server, payload, route));
    NothingEverWaits(n, seen + [Seen(ServerToClient, payload, owner)]);
    AtStage(n, cfg, seen + [Seen(ServerToClient, payload, owner)], l);
  }

  lemma HandshakeSeen(j: seq<Entry>, owners: Owners, seen: seq<Seen>, k: nat, h: Handshake, g: nat)
    requires Entries(j, owners, seen) && k + 3 <= |seen| && seen[k..k + 3] == SeenOf(h, g)
    requires IsConnect(h.connect) && IsAccept(h.accept) && !IsConnectionless(h.data)
    ensures Connected(j, owners, g)
  {
    forall i | 0 <= i < 3 ensures seen[k + i] == SeenOf(h, g)[i] { assert seen[k..k + 3][i] == seen[k + i]; }
    hide IsConnect, IsAccept, IsConnectionless;
    assert seen[k + 0] == SeenOf(h, g)[0] && seen[k + 1] == SeenOf(h, g)[1] && seen[k + 2] == SeenOf(h, g)[2];
    assert ConnectAt(j, owners, g, k) && AcceptAt(j, owners, g, k + 1) && SequencedAt(j, owners, g, k + 2);
    assert AcceptedBefore(j, owners, g, k + 2);
  }

  lemma SettledAfterHandshake(s: State, cfg: Config, l: Link, h: Handshake)
    requires Stage(s, cfg, SeenOf(h, 0), l) && Whole(cfg, h) && l.client.Some?
    ensures s.phase == Looping && Settleable(s)
  {
    var seen := SeenOf(h, 0);
    assert Entries(s.core.journal, s.owners, seen) && s.genA == Summary(s.core.journal, s.owners, 0);
    hide Traced, Stage, Entries, Summary, Invariant, NothingWaits, GenerationComplete, IsConnect, IsAccept, IsConnectionless, SeenOf;
    ReadStage(s, cfg, seen, l);
    EntriesSize(s.core.journal, s.owners, seen);
    HandshakeSeen(s.core.journal, s.owners, seen, 0, h, 0) by { assert |seen| == 3 && seen[0..3] == seen by { SeenThree(h, 0); } }
    GenerationCompleteExactly(s.core.journal, s.owners, 0);
    Waitless(s.core);
  }

  lemma Waitless(c: Core)
    requires NothingWaits(c)
    ensures c.heldClient.None? && c.heldServer.None?
  {
  }

  lemma SeenThree(h: Handshake, g: nat)
    ensures |SeenOf(h, g)| == 3
  {
  }

  lemma SignalEnds(s: State, t: Tick)
    requires s.phase == Looping && t == Signal()
    requires var n := ClientHalf(s, t).state; n.phase == Looping && n.status.limitReached.None? && !n.status.wrongSource
    ensures Iterate(s, t) == ClientHalf(s, t).state
  {
    hide OnSignal;
  }

  /** Neither journal, owners, status nor phase has changed, so as much has been seen as before. */
  lemma StillTraced(s: State, n: State, seen: seq<Seen>)
    requires Traced(s, seen) && Invariant(n) && n.phase == Looping
    requires n == s.(link := n.link, phase := n.phase)
    ensures Traced(n, seen)
  {
    hide Invariant, Entries, Spacious;
  }

  /** A transition signal: the first prepares A's retirement, the second confirms its shutdown. */
  lemma SignalStage(s: State, cfg: Config, seen: seq<Seen>, l: Link)
    requires Stage(s, cfg, seen, l) && s.phase == Looping && Settleable(s) && l.current == 0 && !l.requested
    requires l.prepared ==> l.tailEmitter && l.retired.Some?
    ensures Iterate(s, Signal()).phase == Looping && Settleable(Iterate(s, Signal()))
    ensures Stage(Iterate(s, Signal()), cfg, seen,
                  if l.prepared then l.(requested := true) else l.(retired := l.client, tailEmitter := true, prepared := true))
  {
    hide Traced, Iterate, ClientHalf, Stage, NothingWaits, Invariant, GenerationComplete;
    ReadStage(s, cfg, seen, l);
    TraceAllowed(s, seen);
    var t := Signal();
    SignalTurn(s, t);
    SignalEnds(s, t);
    IterateKeeps(s, t);
    var n := Iterate(s, t);
    StillTraced(s, n, seen);
    AtStage(n, cfg, seen, n.link);
  }

  /** The quiet window passes, and the client is forgotten. */
  lemma QuietStage(s: State, cfg: Config, seen: seq<Seen>, l: Link)
    requires Stage(s, cfg, seen, l) && s.phase == Looping && Settleable(s) && l.requested && !l.completed
    ensures Stage(Iterate(s, Quiet()), cfg, seen, l.(client := None, quiet := true, completed := true))
    ensures Iterate(s, Quiet()).phase == Looping
  {
    hide Traced, Iterate, ClientHalf, Stage, NothingWaits, Invariant, GenerationComplete;
    ReadStage(s, cfg, seen, l);
    TraceAllowed(s, seen);
    QuietTurn(s, Quiet());
    IterateKeeps(s, Quiet());
    var n := Iterate(s, Quiet());
    StillTraced(s, n, seen);
    AtStage(n, cfg, seen, n.link);
  }

  function HandshakeTicks(cfg: Config, h: Handshake, route: Route): seq<Tick> {
    [FromClient(h.source, h.connect), FromServer(cfg.server, h.accept, route), FromServer(cfg.server, h.data, route)]
  }

  function ReconnectTicks(cfg: Config, a: Handshake, b: Handshake): seq<Tick> {
    HandshakeTicks(cfg, a, ToRetiredA) + ([Signal(), Signal(), Quiet()] + (HandshakeTicks(cfg, b, ToB) + [Deadline()]))
  }

  lemma TurnsOfThree(s: State, t1: Tick, t2: Tick, t3: Tick, rest: seq<Tick>)
    requires s.phase == Looping && Iterate(s, t1).phase == Looping && Iterate(Iterate(s, t1), t2).phase == Looping
    ensures Run(s, [t1, t2, t3] + rest) == Run(Iterate(Iterate(Iterate(s, t1), t2), t3), rest)
  {
    hide Iterate, Run;
    OneTurn(s, t1, [t2, t3] + rest);
    OneTurn(Iterate(s, t1), t2, [t3] + rest);
    OneTurn(Iterate(Iterate(s, t1), t2), t3, rest);
    assert [t1, t2, t3] + rest == [t1] + ([t2, t3] + rest);
    assert [t2, t3] + rest == [t2] + ([t3] + rest);
  }

  /** A whole handshake, relayed and counted for its generation. */
  lemma HandshakeStage(s: State, cfg: Config, seen: seq<Seen>, l: Link, h: Handshake, g: nat, rest: seq<Tick>) returns (n: State)
    requires Stage(s, cfg, seen, l) && |seen| <= 13 && Whole(cfg, h) && s.phase == Looping
    requires l.client.None? && g == (if l.completed then 1 else 0)
    requires if l.completed then l.requested && l.prepared && l.retired != Some(h.source) else !l.prepared
    ensures Run(s, HandshakeTicks(cfg, h, if g == 0 then ToRetiredA else ToB) + rest) == Run(n, rest)
    ensures Stage(n, cfg, seen + SeenOf(h, g), l.(client := Some(h.source), current := g, distinct := g == 1)) && n.phase == Looping
  {
    hide Traced, Iterate, Stage, Run, IsConnect, IsAccept, IsConnectionless, FromClient, FromServer;
    var owner, route, server := Some(Attribution(g, h.source)), if g == 0 then ToRetiredA else ToB, cfg.server;
    var t1, t2, t3 := FromClient(h.source, h.connect), FromServer(server, h.accept, route), FromServer(server, h.data, route);
    var l1 := l.(client := Some(h.source), current := g, distinct := g == 1);
    ClientStage(s, cfg, seen, l, h.source, h.connect, g);
    var seen1 := seen + [Seen(ClientToServer, h.connect, owner)];
    var s1 := Iterate(s, t1);
    ServerStage(s1, cfg, seen1, l1, h.source, h.accept, route, g);
    var seen2 := seen1 + [Seen(ServerToClient, h.accept, owner)];
    var s2 := Iterate(s1, t2);
    ServerStage(s2, cfg, seen2, l1, h.source, h.data, route, g);
    n := Iterate(s2, t3);
    assert seen2 + [Seen(ServerToClient, h.data, owner)] == seen + SeenOf(h, g);
    ReadStage(n, cfg, seen + SeenOf(h, g), l1);
    TurnsOfThree(s, t1, t2, t3, rest);
  }

  /** A is retired, shut down and forgotten. */
  lemma Retirement(s: State, cfg: Config, l: Link, h: Handshake, rest: seq<Tick>) returns (n: State)
    requires Stage(s, cfg, SeenOf(h, 0), l) && Whole(cfg, h) && s.phase == Looping
    requires l == Link(Some(h.source), None, false, 0, false, false, false, false, false)
    ensures Run(s, [Signal(), Signal(), Quiet()] + rest) == Run(n, rest)
    ensures Stage(n, cfg, SeenOf(h, 0), Link(None, Some(h.source), true, 0, true, true, true, true, false)) && n.phase == Looping
  {
    SettledAfterHandshake(s, cfg, l, h);
    hide Traced, Iterate, Stage, Run, Whole, SeenOf, Settleable, Signal, Quiet;
    var seen := SeenOf(h, 0);
    SignalStage(s, cfg, seen, l);
    var l1 := l.(retired := l.client, tailEmitter := true, prepared := true);
    var s1 := Iterate(s, Signal());
    SignalStage(s1, cfg, seen, l1);
    var s2 := Iterate(s1, Signal());
    QuietStage(s2, cfg, seen, l1.(requested := true));
    n := Iterate(s2, Quiet());
    TurnsOfThree(s, Signal(), Signal(), Quiet(), rest);
  }

  lemma NonePerturbed(s: State, seen: seq<Seen>)
    requires Traced(s, seen) && s.cfg.scenario == Reconnect
    ensures Perturbed(s.core.journal) == {}
  {
    hide Traced, Invariant, CountDirection;
    var j := s.core.journal;
    TraceAllowed(s, seen);
    forall i | 0 <= i < |j| ensures j[i].action == Forward { ActionAt(s, seen, i); }
  }

  lemma TracedEntries(s: State, seen: seq<Seen>)
    requires Traced(s, seen)
    ensures Entries(s.core.journal, s.owners, seen)
  {
    hide Invariant, Spacious, Entries;
  }

  lemma ReconnectShows(s: State, cfg: Config, a: Handshake, b: Handshake, l: Link, t: RelayMachine.Transition)
    requires Stage(s, cfg, SeenOf(a, 0) + SeenOf(b, 1), l) && Whole(cfg, a) && Whole(cfg, b) && !cfg.functional
    requires l.client.Some? && l.current == 1 && t == RelayMachine.Transition.Transition(true, true, true, true, true)
    ensures Shows(s.(phase := Left), t)
  {
    hide Traced, Stage, Entries, Invariant, NothingWaits, IsConnect, IsAccept, IsConnectionless, Perturbed, Connected;
    var j, seen := s.core.journal, SeenOf(a, 0) + SeenOf(b, 1);
    ReadStage(s, cfg, seen, l);
    TracedEntries(s, seen);
    TraceAllowed(s, seen);
    NonePerturbed(s, seen);
    assert seen[0..0 + 3] == SeenOf(a, 0) && seen[3..3 + 3] == SeenOf(b, 1);
    HandshakeSeen(j, s.owners, seen, 0, a, 0);
    HandshakeSeen(j, s.owners, seen, 3, b, 1);
    assert Travels(j, 0, ClientToServer) && Travels(j, 1, ServerToClient);
  }

  lemma ReconnectRuns(cfg: Config, a: Handshake, b: Handshake) returns (s: State)
    requires Spacious(cfg) && cfg.scenario == Reconnect && Whole(cfg, a) && Whole(cfg, b) && a.source != b.source
    ensures s.phase == Looping && Run(Initial(cfg), ReconnectTicks(cfg, a, b)) == s.(phase := Left)
    ensures Stage(s, cfg, SeenOf(a, 0) + SeenOf(b, 1), Link(Some(b.source), Some(a.source), true, 1, true, true, true, true, true))
  {
    hide Traced, Initial, Stage, Run, Whole, SeenOf, Spacious, Signal, Quiet, Deadline, HandshakeTicks;
    var s0, l0 := Initial(cfg), Link(None, None, false, 0, false, false, false, false, false);
    Begins(cfg);
    Starts(s0, []);
    NothingEverWaits(s0, []);
    AtStage(s0, cfg, [], l0);
    var last := HandshakeTicks(cfg, b, ToB) + [Deadline()];
    var s1 := HandshakeStage(s0, cfg, [], l0, a, 0, [Signal(), Signal(), Quiet()] + last);
    assert [] + SeenOf(a, 0) == SeenOf(a, 0);
    var s2 := Retirement(s1, cfg, l0.(client := Some(a.source)), a, last);
    SeenThree(a, 0);
    s := HandshakeStage(s2, cfg, SeenOf(a, 0), Link(None, Some(a.source), true, 0, true, true, true, true, false), b, 1, [Deadline()]);
    LastTurn(s);
  }

  /** Whatever the game data, a handshake of A, both signals, a quiet line, a handshake of B and the
      deadline make a complete capture of a reconnect. */
  lemma ReconnectCompletes(cfg: Config, a: Handshake, b: Handshake, clientSent: bool, serverSent: bool, t: RelayMachine.Transition)
    requires Spacious(cfg) && cfg.scenario == Reconnect && !cfg.functional
    requires Whole(cfg, a) && Whole(cfg, b) && a.source != b.source
    requires t == RelayMachine.Transition.Transition(true, true, true, true, true)
    ensures var s := Finish(cfg, ReconnectTicks(cfg, a, b), clientSent, serverSent);
            s.phase == Left && Complete(s, t) && |s.core.journal| == 6
  {
    hide Traced, Stage, Finish, Complete, Shows, Whole, Spacious, ReconnectTicks, Run, Initial, SeenOf;
    var seen, ticks := SeenOf(a, 0) + SeenOf(b, 1), ReconnectTicks(cfg, a, b);
    var s := ReconnectRuns(cfg, a, b);
    var l := Link(Some(b.source), Some(a.source), true, 1, true, true, true, true, true);
    ReadStage(s, cfg, seen, l);
    ReconnectShows(s, cfg, a, b, l, t);
    TraceAllowed(s, seen);
    SeenThree(a, 0);
    SeenThree(b, 1);
    hide Invariant;
    FinishAt(cfg, ticks, s, seen, clientSent, serverSent);
    VerdictExact(cfg, ticks, clientSent, serverSent, t);
  }
}
