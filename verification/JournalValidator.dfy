/** The journal validator as it runs: one pass over the entries with an owner for every emission
    ordinal, one over the ordinals, and a search for the successor of every released hold. */
module JournalValidator {
  import opened Common
  import opened RelayTypes
  import opened RelayCore
  import opened RelayLedger
  import opened RelaySettled
  import opened JournalRules
  import opened RawFiles

  const NOBODY: int := -1

  // ---- one entry ----

  ghost predicate EntryAccepted(j: seq<Entry>, i: nat, l: JournalLimits, policy: Policy)
    requires i < |j|
  {
    OriginAccepted(j, i, l, policy) && EmissionsAccepted(j, i, policy)
  }

  /** The entry is one that a complete transport may hold. */
  ghost predicate EntryComplete(j: seq<Entry>, i: nat, policy: Policy)
    requires i < |j|
  {
    && (j[i].wrongSource ==> AdmittedAuxiliary(j, i, policy))
    && !(IsHold(j[i].action) && (j[i].holdState == Held || j[i].holdState == Unresolved))
    && |j[i].emitted| == Required(j[i])
  }

  /** The counts that the pass keeps, after the first `i` entries. */
  ghost predicate Counted(j: seq<Entry>, i: nat, policy: Policy, c2s: nat, s2c: nat, raw: nat, previous: nat,
                queries: nat)
    requires i <= |j|
  {
    && c2s == CountDirection(j[..i], ClientToServer) && s2c == CountDirection(j[..i], ServerToClient)
    && raw == CountBytes(j[..i]) && (i > 0 ==> previous == j[i - 1].timestamp)
    && (policy == FunctionalCompleteCapture ==> queries == CountWrong(j[..i]))
  }

  lemma CountOneMore(j: seq<Entry>, i: nat)
    requires i < |j|
    ensures var more, now := j[..i + 1], j[..i];
            && CountDirection(more, j[i].direction) == CountDirection(now, j[i].direction) + 1
            && (forall d :: d != j[i].direction ==> CountDirection(more, d) == CountDirection(now, d))
            && CountBytes(more) == CountBytes(now) + |j[i].payload|
            && CountWrong(more) == CountWrong(now) + if j[i].wrongSource then 1 else 0
  {
    assert j[..i + 1][..i] == j[..i] && j[..i + 1][i] == j[i];
  }

  method CheckOrigin(j: seq<Entry>, labels: seq<Label>, i: nat, l: JournalLimits, policy: Policy,
                     c2s: nat, s2c: nat, raw: nat, previous: nat, queries: nat)
    returns (ok: bool, complete: bool)
    requires i < |j| == |labels| && Counted(j, i, policy, c2s, s2c, raw, previous, queries)
    ensures ok <==> OriginAccepted(j, i, l, policy) && LabelAccepted(j[i], labels[i])
    ensures complete <==> (j[i].wrongSource ==> AdmittedAuxiliary(j, i, policy))
  {
    CountOneMore(j, i);
    hide CountDirection, CountBytes, CountWrong, IsAuxiliaryQuery;
    var e := j[i];
    var auxiliary := policy == FunctionalCompleteCapture && e.direction == ClientToServer && |e.payload| == 25
                     && e.action == AuxiliaryObservation && e.holdState == NotHeld
                     && !e.delivered && e.emitted == [] && IsAuxiliaryQuery(e.payload)
                     && queries < MAX_AUXILIARY_QUERIES;
    complete := !e.wrongSource || auxiliary;
    ok := e.observedOrdinal == i
      && e.timestamp <= l.maxTimestamp && (i == 0 || previous <= e.timestamp)
      && |e.payload| <= l.maxPayload && (|e.payload| > l.maxRawBytes || raw <= l.maxRawBytes - |e.payload|)
      && e.directionOrdinal == (if e.direction == ClientToServer then c2s + 1 else s2c + 1)
      && e.destinationRole == (if e.direction == ClientToServer then ResearchServer else ResearchClient)
      && e.sourceRole == (if e.wrongSource then UnexpectedSource
                          else if e.direction == ClientToServer then ResearchClient else ResearchServer)
      && e.delivered == (e.emitted != [])
      && !(e.wrongSource && e.delivered)
      && (complete || policy == IncompleteCapture);
    var named := CheckName(labels[i].rawFilename, e.observedOrdinal, e.direction);
    var spelled := CheckDigest(labels[i].sha256);
    ok := ok && named && spelled;
  }

  method CheckEmissions(j: seq<Entry>, i: nat, policy: Policy) returns (ok: bool, complete: bool)
    requires i < |j|
    ensures ok <==> EmissionsAccepted(j, i, policy)
    ensures ok ==> (complete <==> !(IsHold(j[i].action) && (j[i].holdState == Held || j[i].holdState == Unresolved))
                                  && |j[i].emitted| == Required(j[i]))
  {
    var e := j[i];
    complete := true;
    var a := 1;
    while a < |e.emitted|
      invariant forall b :: 0 < b < a && b < |e.emitted| ==> e.emitted[b] == e.emitted[b - 1] + 1
    {
      if e.emitted[a] != e.emitted[a - 1] + 1 { return false, true; }
      a := a + 1;
    }
    var required := 0;
    match e.action {
      case Forward =>
        if e.holdState != NotHeld { return false, true; }
        required := if e.wrongSource then 0 else 1;
      case Drop =>
        if e.holdState != NotHeld { return false, true; }
      case Duplicate =>
        if e.holdState != NotHeld || e.wrongSource { return false, true; }
        required := 2;
      case HoldForDelay | HoldForReorder =>
        if e.holdState == Held || e.holdState == Unresolved {
          complete := false;
          if policy != IncompleteCapture { return false, false; }
          if e.holdState == Unresolved {
            if |e.emitted| > 1 { return false, false; }
            required := |e.emitted|;
          }
        } else {
          if e.holdState != Released || e.wrongSource { return false, true; }
          required := 1;
        }
      case AuxiliaryObservation =>
        if !e.wrongSource || e.holdState != NotHeld || policy != FunctionalCompleteCapture { return false, true; }
    }
    assert required == Required(e);
    if policy == IncompleteCapture && i + 1 == |j| && !e.wrongSource && |e.emitted| < required {
      complete := false;
    } else if |e.emitted| != required {
      return false, complete;
    }
    ok := true;
  }

  // ---- who owns each emission ordinal ----

  /** Entry `a` is before entry `i`, or is entry `i` and claims with one of its first `n` ordinals. */
  ghost predicate Claims(j: seq<Entry>, i: nat, n: nat, a: int, k: nat) {
    && 0 <= a < |j|
    && (if a == i then n <= |j[i].emitted| && k in j[i].emitted[..n] else a < i && k in j[a].emitted)
  }

  /** The table holds the one claimant of each ordinal, and `count` is one more than the largest. */
  ghost predicate Owned(j: seq<Entry>, i: nat, n: nat, owners: seq<int>, count: nat) {
    && count <= |owners|
    && (forall k: nat :: k < |owners| ==> owners[k] == NOBODY || Claims(j, i, n, owners[k], k))
    && (forall a: int, k: nat :: Claims(j, i, n, a, k) ==> k < count && owners[k] == a)
    && (count > 0 ==> owners[count - 1] != NOBODY)
  }

  /** An ordinal of entry `i` is out of bounds or claimed by an earlier entry. */
  ghost predicate Conflict(j: seq<Entry>, i: nat, bound: nat)
    requires i < |j|
  {
    exists k: nat :: k in j[i].emitted && (k >= bound || ClaimedBefore(j, i, k))
  }

  ghost predicate ClaimedBefore(j: seq<Entry>, i: nat, k: nat)
    requires i < |j|
  {
    exists a :: 0 <= a < i && k in j[a].emitted
  }

  lemma ConsecutiveAreDistinct(s: seq<nat>, a: nat, b: nat)
    requires Consecutive(s) && a < b < |s|
    ensures s[a] < s[b]
  {
    if a + 1 < b {
      ConsecutiveAreDistinct(s, a, b - 1);
    }
    assert s[b] == s[b - 1] + 1;
  }

  lemma ClaimsOneMore(j: seq<Entry>, i: nat, n: nat, a: int, k: nat)
    requires i < |j| && n < |j[i].emitted|
    ensures Claims(j, i, n + 1, a, k) <==> Claims(j, i, n, a, k) || (a == i && k == j[i].emitted[n])
  {
    assert j[i].emitted[..n + 1] == j[i].emitted[..n] + [j[i].emitted[n]];
  }

  lemma OwnedOneMore(j: seq<Entry>, i: nat, n: nat, owners: seq<int>, count: nat)
    requires i < |j| && n < |j[i].emitted| && Owned(j, i, n, owners, count)
    requires j[i].emitted[n] < |owners| && owners[j[i].emitted[n]] == NOBODY
    ensures var k := j[i].emitted[n];
            Owned(j, i, n + 1, owners[k := i], if count < k + 1 then k + 1 else count)
  {
    var e, next := j[i].emitted[n], owners[j[i].emitted[n] := i];
    var more := if count < e + 1 then e + 1 else count;
    var m := n + 1;
    forall k: nat | k < |next| ensures next[k] == NOBODY || Claims(j, i, m, next[k], k) {
      ClaimsOneMore(j, i, n, next[k], k);
    }
    forall a: int, k: nat | Claims(j, i, m, a, k) ensures k < more && next[k] == a {
      ClaimsOneMore(j, i, n, a, k);
    }
  }

  method ClaimOrdinals(j: seq<Entry>, i: nat, owners: array<int>, count: nat) returns (ok: bool, next: nat)
    requires i < |j| && Consecutive(j[i].emitted) && Owned(j, i, 0, owners[..], count)
    modifies owners
    ensures ok ==> Owned(j, i, |j[i].emitted|, owners[..], next)
    ensures !ok ==> Conflict(j, i, owners.Length)
  {
    next := count;
    for n := 0 to |j[i].emitted|
      invariant Owned(j, i, n, owners[..], next)
    {
      var k := j[i].emitted[n];
      hide Owned;
      if k >= owners.Length || owners[k] != NOBODY {
        Refuse(j, i, n, owners[..], next);
        return false, next;
      }
      OwnedOneMore(j, i, n, owners[..], next);
      ghost var before := owners[..];
      owners[k] := i;
      assert owners[..] == before[k := i];
      next := if next < k + 1 then k + 1 else next;
    }
    ok := true;
  }

  lemma Refuse(j: seq<Entry>, i: nat, n: nat, owners: seq<int>, count: nat)
    requires i < |j| && n < |j[i].emitted| && Consecutive(j[i].emitted) && Owned(j, i, n, owners, count)
    requires j[i].emitted[n] >= |owners| || owners[j[i].emitted[n]] != NOBODY
    ensures Conflict(j, i, |owners|)
  {
    var k := j[i].emitted[n];
    assert k in j[i].emitted;
    if k < |owners| {
      var a := owners[k];
      assert Claims(j, i, n, a, k);
      if a == i {
        var m :| 0 <= m < n && j[i].emitted[m] == k;
        ConsecutiveAreDistinct(j[i].emitted, m, n);
        assert false;
      }
      assert ClaimedBefore(j, i, k);
    }
  }

  lemma ConflictIsUnacceptable(j: seq<Entry>, i: nat, bound: nat, n: nat)
    requires i < |j| && Conflict(j, i, bound) && n <= bound
    ensures !OrdinalsPartition(j, n)
  {
  }

  lemma NextEntryOwned(j: seq<Entry>, i: nat, owners: seq<int>, count: nat)
    requires i < |j| && Owned(j, i, |j[i].emitted|, owners, count)
    ensures Owned(j, i + 1, 0, owners, count)
  {
    var m := i + 1;
    forall k: nat | k < |owners| ensures owners[k] == NOBODY || Claims(j, m, 0, owners[k], k) {
      ClaimsMove(j, i, owners[k], k);
    }
    forall a: int, k: nat | Claims(j, m, 0, a, k) ensures k < count && owners[k] == a {
      ClaimsMove(j, i, a, k);
    }
  }

  lemma ClaimsMove(j: seq<Entry>, i: nat, a: int, k: nat)
    requires i < |j|
    ensures Claims(j, i + 1, 0, a, k) <==> Claims(j, i, |j[i].emitted|, a, k)
  {
    assert j[i].emitted[..|j[i].emitted|] == j[i].emitted;
    if a == i + 1 && a < |j| { assert j[a].emitted[..0] == []; }
  }

  lemma OwnerOf(j: seq<Entry>, owners: seq<int>, count: nat, i: nat, k: nat)
    requires Owned(j, |j|, 0, owners, count) && i < |j| && k in j[i].emitted
    ensures k < count <= |owners| && owners[k] == i
  {
    assert Claims(j, |j|, 0, i, k);
  }

  lemma OwnerHas(j: seq<Entry>, owners: seq<int>, count: nat, k: nat)
    requires Owned(j, |j|, 0, owners, count) && k < |owners| && owners[k] != NOBODY
    ensures Appears(j, k)
  {
    var a := owners[k];
    assert Claims(j, |j|, 0, a, k);
    assert 0 <= a < |j| && k in j[a].emitted;
  }

  lemma OwnedIsPartition(j: seq<Entry>, owners: seq<int>, count: nat)
    requires Owned(j, |j|, 0, owners, count) && count <= |owners|
    requires forall k :: 0 <= k < count ==> owners[k] != NOBODY
    ensures OrdinalsPartition(j, count)
  {
    forall i, k | 0 <= i < |j| && k in j[i].emitted ensures k < count { OwnerOf(j, owners, count, i, k); }
    forall i, i', k | 0 <= i < |j| && 0 <= i' < |j| && k in j[i].emitted && k in j[i'].emitted ensures i == i' {
      OwnerOf(j, owners, count, i, k);
      OwnerOf(j, owners, count, i', k);
    }
    forall k: nat | k < count ensures Appears(j, k) { OwnerHas(j, owners, count, k); }
    hide Owned, Appears;
  }

  lemma PartitionIsOwned(j: seq<Entry>, owners: seq<int>, count: nat, n: nat)
    requires Owned(j, |j|, 0, owners, count) && OrdinalsPartition(j, n)
    ensures n == count <= |owners| && forall k :: 0 <= k < count ==> owners[k] != NOBODY
  {
    forall k: nat | k < n ensures k < count <= |owners| && owners[k] != NOBODY {
      assert Appears(j, k);
      var i :| 0 <= i < |j| && k in j[i].emitted;
      OwnerOf(j, owners, count, i, k);
    }
    if n > 0 {
      assert Appears(j, n - 1);
      var i :| 0 <= i < |j| && n - 1 in j[i].emitted;
      OwnerOf(j, owners, count, i, n - 1);
    }
    if count > 0 {
      OwnerHas(j, owners, count, count - 1);
      var i :| 0 <= i < |j| && count - 1 in j[i].emitted;
    }
    assert n == count;
  }

  // ---- the release of holds ----

  /** The next entry of the same direction, or the number of entries. */
  method FindSuccessor(j: seq<Entry>, i: nat) returns (q: nat)
    requires i < |j|
    ensures i < q <= |j| && forall k :: i < k < q ==> j[k].direction != j[i].direction
    ensures q < |j| ==> FirstSameDirection(j, i, q)
  {
    q := i + 1;
    while q < |j| && j[q].direction != j[i].direction
      invariant i < q <= |j| && forall k :: i < k < q ==> j[k].direction != j[i].direction
    {
      q := q + 1;
    }
  }

  lemma OneSuccessor(j: seq<Entry>, i: nat, q: nat, r: nat)
    requires i < |j| && FirstSameDirection(j, i, q) && FirstSameDirection(j, i, r)
    ensures q == r
  {
  }

  method CheckRelease(j: seq<Entry>, i: nat) returns (ok: bool)
    requires i < |j|
    ensures ok <==> ReleaseAccepted(j, i)
  {
    var held := j[i];
    if !IsHold(held.action) || held.holdState != Released { return true; }
    var q := FindSuccessor(j, i);
    if q == |j| {
      return held.action == HoldForDelay;
    }
    forall r | FirstSameDirection(j, i, r) ensures r == q { OneSuccessor(j, i, q, r); }
    var next := j[q];
    if next.action != Forward || |next.emitted| != 1 || |held.emitted| != 1 { return false; }
    var delayOrder := held.emitted[0] < next.emitted[0];
    return (held.action == HoldForDelay) == delayOrder;
  }

  // ---- the whole journal ----

  /** The pass over the entries: each one is checked by itself, and its ordinals are claimed. */
  method CheckEntries(j: seq<Entry>, labels: seq<Label>, l: JournalLimits, policy: Policy, owners: array<int>)
    returns (accepted: bool, complete: bool, count: nat)
    requires |labels| == |j|
    requires owners.Length == l.maxEmitted && forall k :: 0 <= k < owners.Length ==> owners[k] == NOBODY
    modifies owners
    ensures accepted ==> Owned(j, |j|, 0, owners[..], count) && forall k :: 0 <= k < |j| ==> EntryAccepted(j, k, l, policy)
    ensures accepted ==> (complete <==> forall k :: 0 <= k < |j| ==> EntryComplete(j, k, policy))
    ensures accepted ==> Labelled(j, labels)
    ensures !accepted ==> !Acceptable(j, l, policy) || !Labelled(j, labels)
  {
    var c2s: nat, s2c: nat, raw: nat, previous: nat, queries: nat := 0, 0, 0, 0, 0;
    complete, count := true, 0;
    assert j[..0] == [];
    NobodyOwns(j, owners[..]);
    for i := 0 to |j|
      invariant Counted(j, i, policy, c2s, s2c, raw, previous, queries)
      invariant Owned(j, i, 0, owners[..], count)
      invariant forall k :: 0 <= k < i ==> EntryAccepted(j, k, l, policy)
      invariant complete <==> forall k :: 0 <= k < i ==> EntryComplete(j, k, policy)
      invariant forall k :: 0 <= k < i ==> LabelAccepted(j[k], labels[k])
    {
      hide Owned, OriginAccepted, EmissionsAccepted, AdmittedAuxiliary, LabelAccepted, Acceptable, Labelled;
      accepted := false;
      var origin, own := CheckOrigin(j, labels, i, l, policy, c2s, s2c, raw, previous, queries);
      if !origin { EntryRefused(j, labels, i, l, policy); return; }
      var emissions, whole := CheckEmissions(j, i, policy);
      if !emissions { EntryRefused(j, labels, i, l, policy); return; }
      AcceptedIsConsecutive(j, i, policy);
      var ok, next := ClaimOrdinals(j, i, owners, count);
      if !ok { Unacceptable(j, i, l, policy, owners.Length); return; }
      NextEntryOwned(j, i, owners[..], next);
      count := next;
      NextCounted(j, i, l, policy, c2s, s2c, raw, previous, queries);
      EntryDecided(j, i, l, policy, own, whole);
      hide Counted, EntryAccepted, EntryComplete;
      if j[i].direction == ClientToServer { c2s := c2s + 1; } else { s2c := s2c + 1; }
      raw, previous := raw + |j[i].payload|, j[i].timestamp;
      if j[i].wrongSource && own { queries := queries + 1; }
      complete := complete && own && whole;
    }
    accepted := true;
    hide LabelAccepted, EntryAccepted, EntryComplete, Owned, Acceptable;
  }

  /** The validator accepts exactly the journals that meet the rules and name their raw files and
      digests well, and then reports them complete exactly when every entry is one that a complete
      transport may hold. */
  method Validate(j: seq<Entry>, labels: seq<Label>, l: JournalLimits, policy: Policy)
    returns (accepted: bool, complete: bool)
    requires |labels| == |j|
    ensures accepted <==> Acceptable(j, l, policy) && Labelled(j, labels)
    ensures accepted ==> (complete <==> TransportComplete(j, policy))
  {
    if !ConfigurationAccepted(l) || |j| == 0 || |j| > l.maxEntries { return false, true; }
    var owners := new int[l.maxEmitted](_ => NOBODY);
    var count;
    accepted, complete, count := CheckEntries(j, labels, l, policy, owners);
    if !accepted { return; }
    OwnedBound(j, owners[..], count);
    hide Owned, Counted, EntryAccepted, EntryComplete, OriginAccepted, EmissionsAccepted, Labelled, OrdinalsPartition,
         TransportComplete, ConfigurationAccepted;
    for k := 0 to count
      invariant count <= owners.Length
      invariant forall m :: 0 <= m < k ==> owners[m] != NOBODY
    {
      if owners[k] == NOBODY {
        GapIsUnacceptable(j, l, policy, owners[..], count, k);
        return false, complete;
      }
    }
    OwnedIsPartition(j, owners[..], count);
    for i := 0 to |j|
      invariant forall k :: 0 <= k < i ==> ReleaseAccepted(j, k)
    {
      var ok := CheckRelease(j, i);
      if !ok { return false, complete; }
    }
    AllAccepted(j, l, policy, count);
    CompleteMeans(j, policy);
    accepted := true;
  }

  lemma EntryRefused(j: seq<Entry>, labels: seq<Label>, i: nat, l: JournalLimits, policy: Policy)
    requires i < |j| == |labels|
    requires !(OriginAccepted(j, i, l, policy) && LabelAccepted(j[i], labels[i]) && EmissionsAccepted(j, i, policy))
    ensures !Acceptable(j, l, policy) || !Labelled(j, labels)
  {
    hide OriginAccepted, LabelAccepted, EmissionsAccepted, OrdinalsPartition, ReleaseAccepted;
  }

  lemma NobodyOwns(j: seq<Entry>, owners: seq<int>)
    requires forall k :: 0 <= k < |owners| ==> owners[k] == NOBODY
    ensures Owned(j, 0, 0, owners, 0)
  {
    if |j| > 0 { assert j[0].emitted[..0] == []; }
  }

  lemma AcceptedIsConsecutive(j: seq<Entry>, i: nat, policy: Policy)
    requires i < |j| && EmissionsAccepted(j, i, policy)
    ensures Consecutive(j[i].emitted)
  {
  }

  lemma Unacceptable(j: seq<Entry>, i: nat, l: JournalLimits, policy: Policy, bound: nat)
    requires i < |j| && bound == l.maxEmitted && Conflict(j, i, bound)
    ensures !Acceptable(j, l, policy)
  {
    forall n | 0 <= n <= bound ensures !OrdinalsPartition(j, n) { ConflictIsUnacceptable(j, i, bound, n); }
    hide OrdinalsPartition, Conflict;
  }

  /** The counts after an accepted entry; every admitted query is counted. */
  lemma NextCounted(j: seq<Entry>, i: nat, l: JournalLimits, policy: Policy, c2s: nat, s2c: nat, raw: nat, previous: nat,
                queries: nat)
    requires i < |j| && OriginAccepted(j, i, l, policy) && Counted(j, i, policy, c2s, s2c, raw, previous, queries)
    ensures var client, wrong := j[i].direction == ClientToServer, j[i].wrongSource;
            && (policy == FunctionalCompleteCapture && wrong ==> AdmittedAuxiliary(j, i, policy))
            && Counted(j, i + 1, policy, if client then c2s + 1 else c2s, if client then s2c else s2c + 1,
                       raw + |j[i].payload|, j[i].timestamp,
                       if wrong && AdmittedAuxiliary(j, i, policy) then queries + 1 else queries)
  {
    CountOneMore(j, i);
    hide CountDirection, CountBytes, CountWrong, BytesAccepted, IsAuxiliaryQuery;
  }

  lemma EntryDecided(j: seq<Entry>, i: nat, l: JournalLimits, policy: Policy, own: bool, whole: bool)
    requires i < |j| && OriginAccepted(j, i, l, policy) && EmissionsAccepted(j, i, policy)
    requires own <==> (j[i].wrongSource ==> AdmittedAuxiliary(j, i, policy))
    requires whole <==> !(IsHold(j[i].action) && (j[i].holdState == Held || j[i].holdState == Unresolved))
                        && |j[i].emitted| == Required(j[i])
    ensures EntryAccepted(j, i, l, policy) && (EntryComplete(j, i, policy) <==> own && whole)
  {
    hide OriginAccepted, EmissionsAccepted, AdmittedAuxiliary, Required;
  }

  lemma OwnedBound(j: seq<Entry>, owners: seq<int>, count: nat)
    requires Owned(j, |j|, 0, owners, count)
    ensures count <= |owners|
  {
  }

  lemma GapIsUnacceptable(j: seq<Entry>, l: JournalLimits, policy: Policy, owners: seq<int>, count: nat, k: nat)
    requires Owned(j, |j|, 0, owners, count) && |owners| == l.maxEmitted
    requires k < count && k < |owners| && owners[k] == NOBODY
    ensures !Acceptable(j, l, policy)
  {
    forall n: nat | n <= |owners| ensures !OrdinalsPartition(j, n) {
      if OrdinalsPartition(j, n) { PartitionIsOwned(j, owners, count, n); }
    }
    hide OrdinalsPartition, Owned;
  }

  lemma CompleteMeans(j: seq<Entry>, policy: Policy)
    ensures TransportComplete(j, policy) <==> forall k :: 0 <= k < |j| ==> EntryComplete(j, k, policy)
  {
    hide AdmittedAuxiliary;
    if forall k :: 0 <= k < |j| ==> EntryComplete(j, k, policy) {
      forall i | 0 <= i < |j|
        ensures j[i].wrongSource ==> AdmittedAuxiliary(j, i, policy)
        ensures !(IsHold(j[i].action) && (j[i].holdState == Held || j[i].holdState == Unresolved))
        ensures |j[i].emitted| == Required(j[i])
      {
        assert EntryComplete(j, i, policy);
      }
    }
  }

  lemma AllAccepted(j: seq<Entry>, l: JournalLimits, policy: Policy, count: nat)
    requires ConfigurationAccepted(l) && 0 < |j| <= l.maxEntries && count <= l.maxEmitted
    requires forall k :: 0 <= k < |j| ==> EntryAccepted(j, k, l, policy)
    requires OrdinalsPartition(j, count) && forall k :: 0 <= k < |j| ==> ReleaseAccepted(j, k)
    ensures Acceptable(j, l, policy)
  {
    hide OriginAccepted, EmissionsAccepted, OrdinalsPartition, ReleaseAccepted;
    forall k | 0 <= k < |j| ensures OriginAccepted(j, k, l, policy) && EmissionsAccepted(j, k, policy) {
      assert EntryAccepted(j, k, l, policy);
    }
  }
}
