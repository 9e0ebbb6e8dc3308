/** What a generation record says about the journal: it is the summary of exactly the entries
    attributed to that generation. */
module RelayGenerations {
  import opened Common
  import opened RelayTypes
  import opened RelayCore
  import opened RelayLedger
  import opened RelayMachine

  type Owners = seq<Option<Attribution>>

  ghost predicate Owned(owners: Owners, g: nat, i: int) {
    0 <= i < |owners| && owners[i].Some? && owners[i].value.generation == g
  }

  ghost function Summary(j: seq<Entry>, owners: Owners, g: nat): Generation
    requires |owners| == |j|
  {
    if j == [] then NEW_GENERATION
    else
      var n := |j| - 1;
      var before := Summary(j[..n], owners[..n], g);
      if Owned(owners, g, n) then ObserveGeneration(before, j[n].direction, j[n].payload, n) else before
  }

  lemma {:induction false} SummaryDependsOnFaces(j: seq<Entry>, k: seq<Entry>, owners: Owners, g: nat)
    requires |owners| == |j| && SameFaces(j, k)
    ensures Summary(j, owners, g) == Summary(k, owners, g)
  {
    if j != [] {
      var n := |j| - 1;
      assert Face(j[n]) == Face(k[n]);
      assert forall i :: 0 <= i < n ==> j[..n][i] == j[i] && k[..n][i] == k[i];
      SummaryDependsOnFaces(j[..n], k[..n], owners[..n], g);
    }
  }

  lemma SummaryAppend(j: seq<Entry>, owners: Owners, e: Entry, o: Option<Attribution>, g: nat)
    requires |owners| == |j|
    ensures Summary(j + [e], owners + [o], g) ==
            if o.Some? && o.value.generation == g then ObserveGeneration(Summary(j, owners, g), e.direction, e.payload, |j|)
            else Summary(j, owners, g)
  {
    assert (j + [e])[..|j|] == j && (owners + [o])[..|j|] == owners;
  }

  // ---- what the fields mean ----

  ghost predicate ConnectAt(j: seq<Entry>, owners: Owners, g: nat, i: int) {
    Owned(owners, g, i) && i < |j| && j[i].direction == ClientToServer && IsConnect(j[i].payload)
  }

  ghost predicate AcceptAt(j: seq<Entry>, owners: Owners, g: nat, i: int) {
    Owned(owners, g, i) && i < |j| && j[i].direction == ServerToClient && IsAccept(j[i].payload)
  }

  /** By position `n` the generation has seen a connect and, after it, an accept. */
  ghost predicate AcceptedBefore(j: seq<Entry>, owners: Owners, g: nat, n: int) {
    exists c, a :: 0 <= c < a < n && ConnectAt(j, owners, g, c) && AcceptAt(j, owners, g, a)
  }

  ghost predicate SequencedAt(j: seq<Entry>, owners: Owners, g: nat, i: int) {
    Owned(owners, g, i) && i < |j| && j[i].direction == ServerToClient && !IsConnectionless(j[i].payload)
  }

  lemma ConnectIsConnectionless(payload: string)
    ensures IsConnect(payload) ==> IsConnectionless(payload)
    ensures IsAccept(payload) ==> IsConnectionless(payload)
  {
    var c, a := HEADER + "connect 48 ", HEADER + "B ";
    assert c[..|HEADER|] == HEADER && a[..|HEADER|] == HEADER;
    if IsConnect(payload) { assert payload[..|HEADER|] == payload[..|c|][..|HEADER|]; }
    if IsAccept(payload) { assert payload[..|HEADER|] == payload[..|a|][..|HEADER|]; }
  }

  ghost predicate RangeFacts(j: seq<Entry>, owners: Owners, g: nat, s: Generation) {
    && (s.first.Some? <==> s.last.Some?)
    && (s.first.None? ==> forall i :: !Owned(owners, g, i))
    && (s.first.Some? ==>
          && Owned(owners, g, s.first.value) && Owned(owners, g, s.last.value)
          && forall i :: Owned(owners, g, i) ==> s.first.value <= i <= s.last.value)
  }

  ghost predicate HandshakeFacts(j: seq<Entry>, owners: Owners, g: nat, s: Generation) {
    && (s.connect <==> exists c :: ConnectAt(j, owners, g, c))
    && (s.accept <==> AcceptedBefore(j, owners, g, |j|))
    && (s.firstSequenced.Some? ==>
          && SequencedAt(j, owners, g, s.firstSequenced.value)
          && AcceptedBefore(j, owners, g, s.firstSequenced.value))
    && (forall i :: SequencedAt(j, owners, g, i) && AcceptedBefore(j, owners, g, i) ==>
          s.firstSequenced.Some? && s.firstSequenced.value <= i)
  }

  /** `first` and `last` are the least and the greatest attributed ordinals. */
  lemma {:induction false} SummaryRange(j: seq<Entry>, owners: Owners, g: nat)
    requires |owners| == |j|
    ensures RangeFacts(j, owners, g, Summary(j, owners, g))
  {
    if j != [] {
      var n := |j| - 1;
      SummaryRange(j[..n], owners[..n], g);
      assert forall i :: Owned(owners[..n], g, i) <==> Owned(owners, g, i) && i < n;
    }
  }

  ghost predicate SeenAt(j: seq<Entry>, owners: Owners, g: nat, d: Direction, i: int) {
    Owned(owners, g, i) && i < |j| && j[i].direction == d
  }

  /** The attributed datagrams of one direction, and the connectionless ones. */
  ghost function OwnedFrom(j: seq<Entry>, owners: Owners, g: nat, d: Direction): set<int> {
    set i | 0 <= i < |j| && SeenAt(j, owners, g, d, i)
  }

  ghost function OwnedConnectionless(j: seq<Entry>, owners: Owners, g: nat): set<int> {
    set i | 0 <= i < |j| && Owned(owners, g, i) && IsConnectionless(j[i].payload)
  }

  ghost predicate CountFacts(j: seq<Entry>, owners: Owners, g: nat, s: Generation) {
    && s.clientPackets == |OwnedFrom(j, owners, g, ClientToServer)|
    && s.serverPackets == |OwnedFrom(j, owners, g, ServerToClient)|
    && s.connectionless == |OwnedConnectionless(j, owners, g)|
  }

  lemma SeenPrefix(j: seq<Entry>, owners: Owners, g: nat, d: Direction, n: nat)
    requires |owners| == |j| == n + 1
    ensures forall i :: SeenAt(j[..n], owners[..n], g, d, i) <==> SeenAt(j, owners, g, d, i) && i < n
  {
  }

  lemma OwnedFromOneMore(j: seq<Entry>, owners: Owners, g: nat, d: Direction, n: nat)
    requires |owners| == |j| == n + 1
    ensures |OwnedFrom(j, owners, g, d)|
            == |OwnedFrom(j[..n], owners[..n], g, d)| + if Owned(owners, g, n) && j[n].direction == d then 1 else 0
  {
    var before := OwnedFrom(j[..n], owners[..n], g, d);
    SeenPrefix(j, owners, g, d, n);
    if SeenAt(j, owners, g, d, n) {
      hide SeenAt;
      assert OwnedFrom(j, owners, g, d) == before + {n};
    } else {
      hide SeenAt;
      assert OwnedFrom(j, owners, g, d) == before;
    }
  }

  lemma OwnedConnectionlessOneMore(j: seq<Entry>, owners: Owners, g: nat, n: nat)
    requires |owners| == |j| == n + 1
    ensures |OwnedConnectionless(j, owners, g)|
            == |OwnedConnectionless(j[..n], owners[..n], g)|
               + if Owned(owners, g, n) && IsConnectionless(j[n].payload) then 1 else 0
  {
    hide IsConnectionless;
    var before := OwnedConnectionless(j[..n], owners[..n], g);
    if Owned(owners, g, n) && IsConnectionless(j[n].payload) {
      assert OwnedConnectionless(j, owners, g) == before + {n};
    } else {
      assert OwnedConnectionless(j, owners, g) == before;
    }
  }

  /** The packet counts are the numbers of the attributed datagrams they stand for. */
  lemma {:induction false} SummaryCounts(j: seq<Entry>, owners: Owners, g: nat)
    requires |owners| == |j|
    ensures CountFacts(j, owners, g, Summary(j, owners, g))
  {
    if j != [] {
      var n := |j| - 1;
      SummaryCounts(j[..n], owners[..n], g);
      hide OwnedFrom, OwnedConnectionless, Owned, IsConnectionless, IsConnect, IsAccept;
      OwnedFromOneMore(j, owners, g, ClientToServer, n);
      OwnedFromOneMore(j, owners, g, ServerToClient, n);
      OwnedConnectionlessOneMore(j, owners, g, n);
    }
  }

  lemma PrefixFacts(j: seq<Entry>, owners: Owners, g: nat, n: nat)
    requires |owners| == |j| == n + 1
    ensures forall i :: ConnectAt(j[..n], owners[..n], g, i) <==> ConnectAt(j, owners, g, i) && i < n
    ensures forall i :: AcceptAt(j[..n], owners[..n], g, i) <==> AcceptAt(j, owners, g, i) && i < n
    ensures forall i :: SequencedAt(j[..n], owners[..n], g, i) <==> SequencedAt(j, owners, g, i) && i < n
  {
  }

  lemma PrefixAccepted(j: seq<Entry>, owners: Owners, g: nat, n: nat, k: int)
    requires |owners| == |j| == n + 1 && k <= n
    ensures AcceptedBefore(j[..n], owners[..n], g, k) <==> AcceptedBefore(j, owners, g, k)
  {
    PrefixFacts(j, owners, g, n);
    if AcceptedBefore(j, owners, g, k) {
      var c, a :| 0 <= c < a < k && ConnectAt(j, owners, g, c) && AcceptAt(j, owners, g, a);
      assert ConnectAt(j[..n], owners[..n], g, c) && AcceptAt(j[..n], owners[..n], g, a);
    }
  }

  /** The handshake flags say exactly what was observed and in which order: `accept` only after a
      connect of the same generation, the first sequenced ordinal only after that accept. */
  lemma {:induction false} SummaryHandshake(j: seq<Entry>, owners: Owners, g: nat)
    requires |owners| == |j|
    ensures HandshakeFacts(j, owners, g, Summary(j, owners, g))
  {
    if j != [] {
      var n := |j| - 1;
      var before, after := Summary(j[..n], owners[..n], g), Summary(j, owners, g);
      SummaryHandshake(j[..n], owners[..n], g);
      PrefixFacts(j, owners, g, n);
      ConnectIsConnectionless(j[n].payload);
      forall k | k <= n ensures AcceptedBefore(j[..n], owners[..n], g, k) <==> AcceptedBefore(j, owners, g, k) {
        PrefixAccepted(j, owners, g, n, k);
      }
      HandshakeStep(j, owners, g, before, after);
    }
  }

  lemma HandshakeStep(j: seq<Entry>, owners: Owners, g: nat, before: Generation, after: Generation)
    requires |owners| == |j| > 0
    requires var n := |j| - 1;
             && HandshakeFacts(j[..n], owners[..n], g, before)
             && after == (if Owned(owners, g, n) then ObserveGeneration(before, j[n].direction, j[n].payload, n) else before)
             && (forall i :: ConnectAt(j[..n], owners[..n], g, i) <==> ConnectAt(j, owners, g, i) && i < n)
             && (forall i :: SequencedAt(j[..n], owners[..n], g, i) <==> SequencedAt(j, owners, g, i) && i < n)
             && (forall k :: k <= n ==> (AcceptedBefore(j[..n], owners[..n], g, k) <==> AcceptedBefore(j, owners, g, k)))
             && (IsConnect(j[n].payload) || IsAccept(j[n].payload) ==> IsConnectionless(j[n].payload))
    ensures HandshakeFacts(j, owners, g, after)
  {
    var n := |j| - 1;
    assert AcceptedBefore(j, owners, g, n) <==> before.accept;
    assert AcceptedBefore(j, owners, g, n + 1) <==> AcceptedBefore(j, owners, g, n) || (before.connect && AcceptAt(j, owners, g, n)) by {
      AcceptedStep(j, owners, g, n);
    }
    if before.connect {
      var c :| ConnectAt(j[..n], owners[..n], g, c);
      assert ConnectAt(j, owners, g, c);
    }
    assert after.connect ==> before.connect || ConnectAt(j, owners, g, n);
    if c :| ConnectAt(j, owners, g, c) {
      assert c < n ==> ConnectAt(j[..n], owners[..n], g, c);
      assert c == n ==> after.connect;
    }
  }

  lemma AcceptedStep(j: seq<Entry>, owners: Owners, g: nat, n: nat)
    requires |owners| == |j| == n + 1
    ensures AcceptedBefore(j, owners, g, n + 1) <==>
            AcceptedBefore(j, owners, g, n) || (AcceptAt(j, owners, g, n) && exists c :: c < n && ConnectAt(j, owners, g, c))
  {
    if AcceptAt(j, owners, g, n) {
      if c :| c < n && ConnectAt(j, owners, g, c) {
        assert 0 <= c < n < n + 1 && ConnectAt(j, owners, g, c) && AcceptAt(j, owners, g, n);
      }
    }
    if AcceptedBefore(j, owners, g, n + 1) && !AcceptedBefore(j, owners, g, n) {
      var c, a :| 0 <= c < a < n + 1 && ConnectAt(j, owners, g, c) && AcceptAt(j, owners, g, a);
      assert a == n;
    }
  }
}
