/** The rules a transport journal must meet before it is published, stated entry by entry. */
module JournalRules {
  import opened Common
  import opened RelayTypes
  import opened RelayCore
  import opened RelayLedger
  import opened RelaySettled

  datatype Policy = CompleteCapture | FunctionalCompleteCapture | IncompleteCapture

  datatype JournalLimits = JournalLimits(
    maxEntries: nat,
    maxPayload: nat,
    maxRawBytes: nat,
    maxEmitted: nat,
    maxTimestamp: nat)

  /** A wrong-source entry that a functional capture may contain: one of at most eight exact
      server-info queries, observed and never delivered. */
  ghost predicate AdmittedAuxiliary(j: seq<Entry>, i: nat, policy: Policy)
    requires i < |j|
  {
    var e := j[i];
    && policy == FunctionalCompleteCapture
    && e.direction == ClientToServer && |e.payload| == 25
    && e.action == AuxiliaryObservation && e.holdState == NotHeld
    && !e.delivered && e.emitted == []
    && IsAuxiliaryQuery(e.payload)
    && CountWrong(j[..i]) < MAX_AUXILIARY_QUERIES
  }

  /** The subtraction that guards the total wraps for a payload above the whole total, and then
      lets it pass; `ByteLimitExact` says when that matters. */
  ghost predicate BytesAccepted(j: seq<Entry>, i: nat, l: JournalLimits)
    requires i < |j|
  {
    && |j[i].payload| <= l.maxPayload
    && (|j[i].payload| > l.maxRawBytes || CountBytes(j[..i + 1]) <= l.maxRawBytes)
  }

  ghost predicate OriginAccepted(j: seq<Entry>, i: nat, l: JournalLimits, policy: Policy)
    requires i < |j|
  {
    var e := j[i];
    && e.observedOrdinal == i
    && e.timestamp <= l.maxTimestamp && (i > 0 ==> j[i - 1].timestamp <= e.timestamp)
    && BytesAccepted(j, i, l)
    && e.directionOrdinal == CountDirection(j[..i + 1], e.direction)
    && e.destinationRole == (if e.direction == ClientToServer then ResearchServer else ResearchClient)
    && e.sourceRole == (if e.wrongSource then UnexpectedSource
                        else if e.direction == ClientToServer then ResearchClient else ResearchServer)
    && (e.delivered <==> e.emitted != [])
    && (e.wrongSource ==> !e.delivered)
    && (e.wrongSource && policy != IncompleteCapture ==> AdmittedAuxiliary(j, i, policy))
  }

  /** Several emissions of one datagram are consecutive. */
  predicate Consecutive(s: seq<nat>) {
    forall a :: 0 < a < |s| ==> s[a] == s[a - 1] + 1
  }

  predicate HoldStateAccepted(e: Entry, policy: Policy) {
    match e.action
    case Forward | Drop => e.holdState == NotHeld
    case Duplicate => e.holdState == NotHeld && !e.wrongSource
    case HoldForDelay | HoldForReorder =>
      if e.holdState == Held || e.holdState == Unresolved then policy == IncompleteCapture
      else e.holdState == Released && !e.wrongSource
    case AuxiliaryObservation =>
      e.wrongSource && e.holdState == NotHeld && policy == FunctionalCompleteCapture
  }

  /** How many emissions the action of an entry calls for. An unresolved hold may have been sent
      once at the deadline or not at all. */
  function Required(e: Entry): nat {
    match e.action
    case Forward => if e.wrongSource then 0 else 1
    case Drop => 0
    case Duplicate => 2
    case HoldForDelay | HoldForReorder =>
      if e.holdState == Held then 0
      else if e.holdState == Unresolved then (if |e.emitted| <= 1 then |e.emitted| else 1)
      else 1
    case AuxiliaryObservation => 0
  }

  /** Only the very last entry of an incomplete capture may lack emissions: its send failed. */
  predicate PartialAllowed(j: seq<Entry>, i: nat, policy: Policy)
    requires i < |j|
  {
    policy == IncompleteCapture && i + 1 == |j| && !j[i].wrongSource && |j[i].emitted| < Required(j[i])
  }

  predicate EmissionsAccepted(j: seq<Entry>, i: nat, policy: Policy)
    requires i < |j|
  {
    && Consecutive(j[i].emitted)
    && HoldStateAccepted(j[i], policy)
    && (|j[i].emitted| == Required(j[i]) || PartialAllowed(j, i, policy))
  }

  ghost predicate Appears(j: seq<Entry>, k: nat) {
    exists i :: 0 <= i < |j| && k in j[i].emitted
  }

  /** The emission ordinals of all entries are exactly 0..n-1, each used once. */
  ghost predicate OrdinalsPartition(j: seq<Entry>, n: nat) {
    && (forall i, k :: 0 <= i < |j| && k in j[i].emitted ==> k < n)
    && (forall k: nat :: k < n ==> Appears(j, k))
    && (forall i, i', k :: 0 <= i < |j| && 0 <= i' < |j| && k in j[i].emitted && k in j[i'].emitted ==> i == i')
  }

  predicate FirstSameDirection(j: seq<Entry>, i: nat, q: nat)
    requires i < |j|
  {
    && i < q < |j| && j[q].direction == j[i].direction
    && forall k :: i < k < q ==> j[k].direction != j[i].direction
  }

  /** A released hold was released by the very next datagram of its direction, in the order its
      action asks for; only a delay may have been released by the deadline instead. */
  predicate ReleaseAccepted(j: seq<Entry>, i: nat)
    requires i < |j|
  {
    IsHold(j[i].action) && j[i].holdState == Released ==>
      && ((forall q :: i < q < |j| ==> j[q].direction != j[i].direction) ==> j[i].action == HoldForDelay)
      && (forall q :: i < q < |j| && FirstSameDirection(j, i, q) ==>
            && j[q].action == Forward && |j[q].emitted| == 1 && |j[i].emitted| == 1
            && (j[i].action == HoldForDelay <==> j[i].emitted[0] < j[q].emitted[0]))
  }

  predicate ConfigurationAccepted(l: JournalLimits) {
    && 0 < l.maxEntries <= CAP_DATAGRAMS
    && 0 < l.maxPayload <= CAP_PAYLOAD
    && 0 < l.maxRawBytes <= CAP_RAW_BYTES
    && 0 < l.maxEmitted <= 2 * CAP_DATAGRAMS
    && 0 < l.maxTimestamp
  }

  ghost predicate Acceptable(j: seq<Entry>, l: JournalLimits, policy: Policy) {
    && ConfigurationAccepted(l)
    && 0 < |j| <= l.maxEntries
    && (forall i :: 0 <= i < |j| ==> OriginAccepted(j, i, l, policy))
    && (forall i :: 0 <= i < |j| ==> EmissionsAccepted(j, i, policy))
    && (exists n :: 0 <= n <= l.maxEmitted && OrdinalsPartition(j, n))
    && (forall i :: 0 <= i < |j| ==> ReleaseAccepted(j, i))
  }

  /** The completeness flag of an acceptable journal. */
  ghost predicate TransportComplete(j: seq<Entry>, policy: Policy) {
    forall i :: 0 <= i < |j| ==>
      && (j[i].wrongSource ==> AdmittedAuxiliary(j, i, policy))
      && !(IsHold(j[i].action) && (j[i].holdState == Held || j[i].holdState == Unresolved))
      && |j[i].emitted| == Required(j[i])
  }

  // ---- the byte limit ----

  /** An entry the relay would write for a forwarded datagram that is alone in its journal. */
  function Lone(payload: string): Entry {
    Entry(0, ClientToServer, 1, 0, payload, ResearchClient, ResearchServer, Forward, NotHeld, [0], true, false)
  }

  /** Where payloads may be longer than all payloads together, one such payload passes. */
  lemma OversizedPayloadPasses(l: JournalLimits, payload: string, policy: Policy)
    requires ConfigurationAccepted(l) && l.maxRawBytes < |payload| <= l.maxPayload
    ensures Acceptable([Lone(payload)], l, policy) && CountBytes([Lone(payload)]) > l.maxRawBytes
  {
    var j := [Lone(payload)];
    assert j[..0] == [] && j[..1] == j;
    assert CountDirection(j, ClientToServer) == 1 && CountBytes(j) == |payload|;
    assert OrdinalsPartition(j, 1) by {
      assert j[0].emitted[0] == 0;
      assert 0 in j[0].emitted && Appears(j, 0);
    }
  }

  /** Otherwise the running total never exceeds the limit. */
  lemma TotalWithinLimit(j: seq<Entry>, l: JournalLimits, n: nat)
    requires l.maxPayload <= l.maxRawBytes && n <= |j|
    requires forall i :: 0 <= i < |j| ==> BytesAccepted(j, i, l)
    ensures CountBytes(j[..n]) <= l.maxRawBytes
  {
    if n > 0 { assert BytesAccepted(j, n - 1, l); }
  }

  /** The byte limit of the whole journal is enforced exactly when no payload may exceed it. */
  lemma ByteLimitExact(l: JournalLimits, policy: Policy)
    requires ConfigurationAccepted(l)
    ensures (forall j :: Acceptable(j, l, policy) ==> CountBytes(j) <= l.maxRawBytes) <==> l.maxPayload <= l.maxRawBytes
  {
    if l.maxPayload <= l.maxRawBytes {
      forall j | Acceptable(j, l, policy) ensures CountBytes(j) <= l.maxRawBytes {
        forall i | 0 <= i < |j| ensures BytesAccepted(j, i, l) {
          assert OriginAccepted(j, i, l, policy);
        }
        TotalWithinLimit(j, l, |j|);
        assert j[..|j|] == j;
      }
    } else {
      var payload := seq(l.maxRawBytes + 1, i => 'x');
      OversizedPayloadPasses(l, payload, policy);
    }
  }
}
