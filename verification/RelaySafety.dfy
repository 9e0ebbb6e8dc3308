/** The main results about the relay: what is true after every run, however its inputs, signals,
    send results and transition answers turn out. */
module RelaySafety {
  import opened Common
  import opened RelayTypes
  import opened RelayCore
  import opened RelayLedger
  import opened RelaySettled
  import opened RelayOrder
  import opened RelayRuns
  import opened RelayMachine
  import opened RelayGenerations
  import opened RelayBudget
  import opened RelayFinal
  import opened RelayInvariant

  // ---- one turn ----

  lemma StopKeeps(s: State, w: Wait)
    requires Invariant(s) && s.phase == Looping
    ensures Invariant(CheckStop(s, w)) && CheckStop(s, w).link == s.link && CheckStop(s, w).cfg == s.cfg
  {
    hide Ledger, CoreLive, Within, Final;
  }

  lemma PhaseKeeps(s: State, p: Phase)
    requires Invariant(s) && !s.phase.Terminal?
    ensures Invariant(s.(phase := p))
  {
    hide Ledger, CoreLive, Within, Final;
  }

  /** Uncounted server datagrams on the wire of a reconnect run presuppose a retired endpoint. */
  ghost predicate TailsRetired(s: State) {
    forall k :: 0 <= k < |s.core.wire| ==>
      (s.core.wire[k].direction == ServerToClient && Reconnecting(s)
       && s.core.wire[k].index < |s.owners| && s.owners[s.core.wire[k].index].None?
       ==> s.link.retired.Some?)
  }

  /** Changing only the link keeps every attribution as long as the endpoints in use stay put. */
  lemma RelinkKeeps(s: State, l: Link)
    requires Invariant(s)
    requires s.link.current <= l.current <= 1
    requires forall i :: 0 <= i < |s.owners| && s.owners[i].Some? ==>
               EndpointOf(l, s.owners[i].value.generation) == EndpointOf(s.link, s.owners[i].value.generation)
    requires s.link.retired.Some? ==> l.retired == s.link.retired
    requires TailsRetired(s)
    requires LinkSound(s.(link := l)) && SlotsSound(s.(link := l)) && LinkLive(s.(link := l))
    ensures Invariant(s.(link := l))
  {
    hide Ledger, CoreLive, Within, Final;
    var s' := s.(link := l);
    forall i | 0 <= i < |s.owners| ensures AttributionSound(Reconnecting(s'), l, s.owners[i], s.core.journal[i]) {
      assert AttributionSound(Reconnecting(s), s.link, s.owners[i], s.core.journal[i]);
    }
  }

  lemma TailsAreRetired(s: State)
    requires Invariant(s)
    ensures TailsRetired(s)
  {
    hide Ledger, CoreLive, Within, Final;
    assert WireSound(s.cfg, s.link, s.owners, s.core.wire);
  }

  lemma SignalLink(s: State, t: Tick)
    requires LinkSound(s) && LinkLive(s) && SlotsSound(s)
    ensures var s' := OnSignal(s, t);
            && s' == s.(link := s'.link, phase := s'.phase)
            && LinkSound(s.(link := s'.link)) && LinkLive(s.(link := s'.link)) && SlotsSound(s.(link := s'.link))
            && s'.link.current == s.link.current
            && (forall g :: EndpointOf(s'.link, g) == EndpointOf(s.link, g))
            && (s.link.retired.Some? ==> s'.link.retired == s.link.retired)
  {
  }

  lemma SignalKeeps(s: State, t: Tick)
    requires Invariant(s) && s.phase == Looping
    ensures Invariant(OnSignal(s, t)) && OnSignal(s, t).cfg == s.cfg
  {
    hide Ledger, CoreLive, Within, Final;
    var l := OnSignal(s, t).link;
    TailsAreRetired(s);
    SignalLink(s, t);
    RelinkKeeps(s, l);
    PhaseKeeps(s.(link := l), OnSignal(s, t).phase);
  }

  lemma LearnKeeps(s: State, source: Address, payload: string, t: Tick)
    requires Invariant(s) && s.phase == Looping && !ForeignSource(s, source, payload, t.bLearned)
    ensures var s1 := LearnClient(s, source, payload, t);
            && Invariant(s1) && s1.cfg == s.cfg
            && (s1.phase == Looping ==> s1.link.client == Some(source) && MayCount(s1, source))
  {
    hide Ledger, CoreLive, Within, Final;
    var s1 := LearnClient(s, source, payload, t);
    TailsAreRetired(s);
    forall i | 0 <= i < |s.owners| && s.owners[i].Some?
      ensures EndpointOf(s1.link, s.owners[i].value.generation) == EndpointOf(s.link, s.owners[i].value.generation)
    {
      assert AttributionSound(Reconnecting(s), s.link, s.owners[i], s.core.journal[i]);
    }
    RelinkKeeps(s, s1.link);
  }

  lemma ForeignClientKeeps(s: State, source: Address, payload: string, t: Tick)
    requires Invariant(s) && s.phase == Looping
    ensures Invariant(OnForeignClient(s, source, payload, t).state) && OnForeignClient(s, source, payload, t).state.cfg == s.cfg
  {
    hide Ledger, CoreLive, Within, Final, Summary, WireSound, OwnersOrdered;
    hide BudgetViolation, CaptureAction, Record, ObserveGeneration, IsAuxiliaryQuery;
    var auxiliary := IsAuxiliaryObservation(payload, s.cfg.functional, source.host == LOOPBACK_HOST,
                                            s.link.client.Some?, s.link.client == Some(source), s.status.auxiliaryCount);
    FailedRecording(s, ClientToServer, payload, true, auxiliary, true, source, t.clientDelay, t.clientStored);
    RejectedRecording(s, ClientToServer, payload, auxiliary, source, t.clientDelay, t.clientStored);
  }

  lemma OwnClientKeeps(s: State, source: Address, payload: string, t: Tick)
    requires Invariant(s) && s.phase == Looping && !ForeignSource(s, source, payload, t.bLearned)
    ensures var r := OnOwnClient(s, source, payload, t);
            Invariant(r.state) && r.state.cfg == s.cfg && (r.next ==> r.state.phase == Looping)
  {
    hide Ledger, CoreLive, Within, Final;
    LearnKeeps(s, source, payload, t);
    var s1 := LearnClient(s, source, payload, t);
    if s1.phase == Looping {
      RelayKeeps(s1, ClientToServer, s.cfg.server, payload, true, source,
                 t.clientDelay, t.clientStored, t.clientSent1, t.clientSent2, 8);
    }
  }

  lemma ClientKeeps(s: State, t: Tick)
    requires Invariant(s) && s.phase == Looping
    ensures Invariant(OnClient(s, t).state) && OnClient(s, t).state.cfg == s.cfg
    ensures OnClient(s, t).next ==> OnClient(s, t).state.phase == Looping
  {
    hide Ledger, CoreLive, Within, Final;
    if t.fromClient.Datagram? {
      var source, payload := t.fromClient.source, t.fromClient.payload;
      if ForeignSource(s, source, payload, t.bLearned) {
        ForeignClientKeeps(s, source, payload, t);
      } else {
        OwnClientKeeps(s, source, payload, t);
      }
    } else {
      PhaseKeeps(s, Terminal(6));
    }
  }

  lemma ForeignServerKeeps(s: State, payload: string, t: Tick, source: Address)
    requires Invariant(s) && s.phase == Looping
    ensures Invariant(OnForeignServer(s, payload, t, source)) && OnForeignServer(s, payload, t, source).cfg == s.cfg
  {
    hide Ledger, CoreLive, Within, Final;
    FailedRecording(s, ServerToClient, payload, true, false, true, source, t.serverDelay, t.serverStored);
    RejectedRecording(s, ServerToClient, payload, false, source, t.serverDelay, t.serverStored);
  }

  lemma PreparedServerKeeps(s: State, payload: string, t: Tick)
    requires Invariant(s) && s.phase == Looping && s.link.prepared
    ensures Invariant(OnPreparedServer(s, payload, t)) && OnPreparedServer(s, payload, t).cfg == s.cfg
  {
    hide Ledger, CoreLive, Within, Final;
    var routeB := s.link.requested && s.link.completed && t.route == ToB;
    var destination := if routeB then s.link.client else s.link.retired;
    if !(s.link.requested && t.route == Rejected) && destination.Some? {
      RelayKeeps(s, ServerToClient, destination.value, payload, !s.link.requested || routeB, destination.value,
                 t.serverDelay, t.serverStored, t.serverSent1, t.serverSent2, 10);
    }
  }

  lemma ServerKeeps(s: State, t: Tick)
    requires Invariant(s) && s.phase == Looping
    ensures Invariant(OnServer(s, t)) && OnServer(s, t).cfg == s.cfg
  {
    hide Ledger, CoreLive, Within, Final;
    if t.fromServer.Datagram? {
      var source, payload := t.fromServer.source, t.fromServer.payload;
      if source != s.cfg.server || (!s.link.prepared && s.link.client.None?) {
        ForeignServerKeeps(s, payload, t, source);
      } else if s.link.prepared {
        PreparedServerKeeps(s, payload, t);
      } else {
        RelayKeeps(s, ServerToClient, s.link.client.value, payload, true, s.link.client.value,
                   t.serverDelay, t.serverStored, t.serverSent1, t.serverSent2, 10);
      }
    }
  }

  lemma QuietKeeps(s: State, t: Tick)
    requires Invariant(s) && s.phase == Looping
    ensures Invariant(OnQuiet(s, t)) && OnQuiet(s, t).cfg == s.cfg
  {
    hide Ledger, CoreLive, Within, Final;
    var s1 := OnQuiet(s, t);
    TailsAreRetired(s);
    forall i | 0 <= i < |s.owners| && s.owners[i].Some?
      ensures EndpointOf(s1.link, s.owners[i].value.generation) == EndpointOf(s.link, s.owners[i].value.generation)
    {
      assert AttributionSound(Reconnecting(s), s.link, s.owners[i], s.core.journal[i]);
    }
    if s1.link.completed || !s.link.prepared || s1.link.client == s.link.client {
      RelinkKeeps(s, s1.link);
    } else {
      RelinkKeeps(s, s1.link.(quiet := true, completed := true));
    }
  }

  lemma IterateKeeps(s: State, t: Tick)
    requires Invariant(s) && s.phase == Looping
    ensures Invariant(Iterate(s, t)) && Iterate(s, t).cfg == s.cfg
  {
    hide Ledger, CoreLive, Within, Final;
    PhaseKeeps(s, Left);
    StopKeeps(s, t.stopBefore);
    var s1 := CheckStop(s, t.stopBefore);
    if !t.deadline && s1.phase == Looping {
      SignalKeeps(s1, t);
      var s2 := OnSignal(s1, t);
      if s2.phase == Looping {
        ClientKeeps(s2, t);
        var half := OnClient(s2, t);
        if half.next { ServerHalfKeeps(half.state, t); }
      }
    }
  }

  lemma EndKeeps(s: State, t: Tick)
    requires Invariant(s) && s.phase == Looping
    ensures Invariant(EndOfTurn(s, t)) && EndOfTurn(s, t).cfg == s.cfg
  {
    hide Ledger, CoreLive, Within, Final;
    PhaseKeeps(s, Left);
    QuietKeeps(s, t);
  }

  lemma ServerSideKeeps(s: State, t: Tick)
    requires Invariant(s)
    ensures Invariant(ServerSide(s, t)) && ServerSide(s, t).cfg == s.cfg
  {
    hide Ledger, CoreLive, Within, Final;
    if s.phase == Looping {
      ServerKeeps(s, t);
      var s1 := OnServer(s, t);
      if s1.phase == Looping { EndKeeps(s1, t); }
    }
  }

  lemma ServerHalfKeeps(s: State, t: Tick)
    requires Invariant(s) && s.phase == Looping
    ensures Invariant(ServerHalf(s, t)) && ServerHalf(s, t).cfg == s.cfg
  {
    hide Ledger, CoreLive, Within, Final;
    PhaseKeeps(s, Left);
    StopKeeps(s, t.stopBetween);
    ServerSideKeeps(CheckStop(s, t.stopBetween), t);
  }

  // ---- whole runs ----

  /** The loop over any sequence of turns; turns after it has been left are not taken. */
  function Run(s: State, ticks: seq<Tick>): State
    decreases |ticks|
  {
    if ticks == [] || s.phase != Looping then s else Run(Iterate(s, ticks[0]), ticks[1..])
  }

  lemma {:induction false} RunKeeps(s: State, ticks: seq<Tick>)
    requires Invariant(s)
    ensures Invariant(Run(s, ticks)) && Run(s, ticks).cfg == s.cfg
    decreases |ticks|
  {
    hide Ledger, CoreLive, Within, Final;
    if ticks != [] && s.phase == Looping {
      IterateKeeps(s, ticks[0]);
      RunKeeps(Iterate(s, ticks[0]), ticks[1..]);
    }
  }

  // ---- what a run never undoes ----

  /** Generations only advance, a retired endpoint stays retired, and once B is learnt neither
      endpoint ever changes again. */
  ghost predicate Advances(l: Link, m: Link) {
    && l.current <= m.current
    && (l.prepared ==> m.prepared && m.retired == l.retired)
    && (l.requested ==> m.requested) && (l.completed ==> m.completed)
    && (l.current == 1 ==> m.client == l.client)
  }

  lemma AdvancesOn(a: Link, b: Link, c: Link)
    requires Advances(a, b) && Advances(b, c) && c.current <= 1
    ensures Advances(a, c)
  {
  }

  lemma SignalAdvances(s: State, t: Tick)
    ensures Advances(s.link, OnSignal(s, t).link)
  {
  }

  lemma RelayLink(s: State, d: Direction, destination: Address, payload: string, attribute: bool, endpoint: Address,
                  delay: nat, stored: bool, sent1: bool, sent2: bool, failure: nat)
    ensures Relay(s, d, destination, payload, attribute, endpoint, delay, stored, sent1, sent2, failure).link == s.link
  {
    hide BudgetViolation, CaptureAction, Record, ObserveGeneration, Process;
  }

  lemma RejectLink(s: State, d: Direction, payload: string, auxiliary: bool, endpoint: Address, delay: nat, stored: bool)
    ensures RecordObservation(s, d, payload, true, auxiliary, true, endpoint, delay, stored).state.link == s.link
  {
    hide BudgetViolation, CaptureAction, Record, ObserveGeneration;
  }

  lemma LearnAdvances(s: State, source: Address, payload: string, t: Tick)
    requires LinkSound(s)
    ensures Advances(s.link, LearnClient(s, source, payload, t).link)
  {
  }

  lemma ForeignClientLink(s: State, source: Address, payload: string, t: Tick)
    ensures OnForeignClient(s, source, payload, t).state.link == s.link
  {
    hide RecordObservation, IsAuxiliaryObservation;
    var auxiliary := IsAuxiliaryObservation(payload, s.cfg.functional, source.host == LOOPBACK_HOST,
                                            s.link.client.Some?, s.link.client == Some(source), s.status.auxiliaryCount);
    RejectLink(s, ClientToServer, payload, auxiliary, source, t.clientDelay, t.clientStored);
  }

  lemma OwnClientAdvances(s: State, source: Address, payload: string, t: Tick)
    requires LinkSound(s)
    ensures Advances(s.link, OnOwnClient(s, source, payload, t).state.link)
  {
    LearnAdvances(s, source, payload, t);
    hide Relay, LearnClient;
    RelayLink(LearnClient(s, source, payload, t), ClientToServer, s.cfg.server, payload, true, source,
              t.clientDelay, t.clientStored, t.clientSent1, t.clientSent2, 8);
  }

  lemma ClientAdvances(s: State, t: Tick)
    requires LinkSound(s)
    ensures Advances(s.link, OnClient(s, t).state.link)
  {
    Stays(s.link);
    if t.fromClient.Datagram? {
      hide ForeignSource, OnForeignClient, OnOwnClient, LinkSound;
      ForeignClientLink(s, t.fromClient.source, t.fromClient.payload, t);
      OwnClientAdvances(s, t.fromClient.source, t.fromClient.payload, t);
    }
  }

  lemma ServerLink(s: State, t: Tick)
    ensures OnServer(s, t).link == s.link
  {
    hide RecordObservation, Relay;
    if t.fromServer.Datagram? {
      var payload := t.fromServer.payload;
      RejectLink(s, ServerToClient, payload, false, t.fromServer.source, t.serverDelay, t.serverStored);
      forall destination: Address, attribute
        ensures Relay(s, ServerToClient, destination, payload, attribute, destination,
                      t.serverDelay, t.serverStored, t.serverSent1, t.serverSent2, 10).link == s.link
      {
        RelayLink(s, ServerToClient, destination, payload, attribute, destination,
                  t.serverDelay, t.serverStored, t.serverSent1, t.serverSent2, 10);
      }
    }
  }

  lemma QuietAdvances(s: State, t: Tick)
    requires LinkSound(s)
    ensures Advances(s.link, OnQuiet(s, t).link)
  {
  }

  lemma IterateAdvances(s: State, t: Tick)
    requires Invariant(s) && s.phase == Looping
    ensures Advances(s.link, Iterate(s, t).link)
  {
    hide Ledger, CoreLive, Final, SlotsSound, Attributed, WithinBudget, LinkLive, LinkSound, Advances;
    hide OnSignal, OnClient, OnServer, OnQuiet;
    Stays(s.link);
    StopKeeps(s, t.stopBefore);
    var s1 := CheckStop(s, t.stopBefore);
    if !t.deadline && s1.phase == Looping {
      SignalKeeps(s1, t);
      SignalAdvances(s1, t);
      var s2 := OnSignal(s1, t);
      if s2.phase == Looping {
        ClientKeeps(s2, t);
        ClientAdvances(s2, t);
        var half := OnClient(s2, t);
        Joined(s.link, s2.link, half.state);
        if half.next {
          ServerHalfAdvances(half.state, t);
          ServerHalfKeeps(half.state, t);
          Joined(s.link, half.state.link, ServerHalf(half.state, t));
        }
      }
    }
  }

  lemma Stays(l: Link)
    ensures Advances(l, l)
  {
  }

  lemma Joined(a: Link, b: Link, s: State)
    requires Advances(a, b) && Advances(b, s.link) && LinkSound(s)
    ensures Advances(a, s.link)
  {
    AdvancesOn(a, b, s.link);
  }

  lemma ServerHalfAdvances(s: State, t: Tick)
    requires Invariant(s) && s.phase == Looping
    ensures Advances(s.link, ServerHalf(s, t).link)
  {
    hide Ledger, CoreLive, Final, SlotsSound, Attributed, WithinBudget, LinkLive, LinkSound, Advances;
    hide OnServer, OnQuiet;
    Stays(s.link);
    var s1 := CheckStop(s, t.stopBetween);
    if s1.phase == Looping {
      StopKeeps(s, t.stopBetween);
      ServerKeeps(s1, t);
      ServerLink(s1, t);
      QuietAdvances(OnServer(s1, t), t);
    }
  }

  lemma {:induction false} RunAdvances(s: State, ticks: seq<Tick>)
    requires Invariant(s)
    ensures Advances(s.link, Run(s, ticks).link)
    decreases |ticks|
  {
    hide Ledger, CoreLive, Within, Final, Advances, Iterate;
    Stays(s.link);
    if ticks != [] && s.phase == Looping {
      IterateKeeps(s, ticks[0]);
      IterateAdvances(s, ticks[0]);
      RunAdvances(Iterate(s, ticks[0]), ticks[1..]);
      RunKeeps(s, ticks);
      Joined(s.link, Iterate(s, ticks[0]).link, Run(s, ticks));
    }
  }
}
