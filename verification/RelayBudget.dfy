/** What every recorded entry owes to the capture budget, the clock and the action policy. */
module RelayBudget {
  import opened Common
  import opened RelayTypes
  import opened RelayCore
  import opened RelayLedger
  import opened RelayMachine

  function CappedStamp(cfg: Config, elapsed: nat): nat {
    if elapsed <= cfg.limits.maxTimestamp then elapsed else cfg.limits.maxTimestamp
  }

  ghost predicate EntryWithin(cfg: Config, elapsed: nat, e: Entry) {
    && |e.payload| <= cfg.limits.maxPayload
    && e.timestamp <= CappedStamp(cfg, elapsed)
    && (e.action == AuxiliaryObservation ==>
          cfg.functional && e.direction == ClientToServer && IsAuxiliaryQuery(e.payload))
    && (!e.wrongSource ==>
          e.action == CaptureAction(cfg.scenario, e.direction, e.directionOrdinal, cfg.perturbation))
  }

  ghost predicate TimeOrdered(j: seq<Entry>) {
    forall a, b :: 0 <= a < b < |j| ==> j[a].timestamp <= j[b].timestamp
  }

  /** The journal respects the budget; `auxiliary` is the number of admitted auxiliary queries. */
  ghost predicate Within(cfg: Config, j: seq<Entry>, elapsed: nat, auxiliary: nat) {
    && |j| <= cfg.limits.maxDatagrams
    && CountBytes(j) <= cfg.limits.maxRawBytes
    && (forall i :: 0 <= i < |j| ==> EntryWithin(cfg, elapsed, j[i]))
    && TimeOrdered(j)
    && CountAuxiliary(j) == auxiliary <= MAX_AUXILIARY_QUERIES
  }

  lemma WithinDependsOnFaces(cfg: Config, j: seq<Entry>, k: seq<Entry>, elapsed: nat, auxiliary: nat)
    requires Within(cfg, j, elapsed, auxiliary) && SameFaces(j, k)
    ensures Within(cfg, k, elapsed, auxiliary)
  {
    CountsDependOnFaces(j, k);
    forall i | 0 <= i < |k| ensures EntryWithin(cfg, elapsed, k[i]) && k[i].timestamp == j[i].timestamp {
      assert Face(j[i]) == Face(k[i]);
      assert EntryWithin(cfg, elapsed, j[i]);
    }
  }

  lemma WithinLater(cfg: Config, j: seq<Entry>, elapsed: nat, later: nat, auxiliary: nat)
    requires Within(cfg, j, elapsed, auxiliary) && elapsed <= later
    ensures Within(cfg, j, later, auxiliary)
  {
    forall i | 0 <= i < |j| ensures EntryWithin(cfg, later, j[i]) {
      assert EntryWithin(cfg, elapsed, j[i]);
    }
  }

  /** Recording within the budget keeps within it. */
  lemma RecordWithin(cfg: Config, c: Core, o: Observation, elapsed: nat, auxiliary: nat)
    requires Within(cfg, c.journal, elapsed, auxiliary) && Ledger(c)
    requires BudgetViolation(c.counters, cfg.limits, o.direction, |o.payload|).None?
    requires o.timestamp == CappedStamp(cfg, elapsed)
    requires o.auxiliary ==> o.wrongSource && cfg.functional && o.direction == ClientToServer
                             && IsAuxiliaryQuery(o.payload) && auxiliary < MAX_AUXILIARY_QUERIES
    ensures var policy := CaptureAction(cfg.scenario, o.direction, DirectionOrdinal(c.counters, o), cfg.perturbation);
            Within(cfg, Record(c, o, policy).journal, elapsed, if o.auxiliary then auxiliary + 1 else auxiliary)
  {
    hide WireMatches, EntryShape, SlotMatches;
    var policy := CaptureAction(cfg.scenario, o.direction, DirectionOrdinal(c.counters, o), cfg.perturbation);
    var k, n := Record(c, o, policy).journal, |c.journal|;
    assert k[..n] == c.journal;
    forall i | 0 <= i < |k| ensures EntryWithin(cfg, elapsed, k[i]) {
      if i < n { assert EntryWithin(cfg, elapsed, c.journal[i]); }
    }
    forall a, b | 0 <= a < b < |k| ensures k[a].timestamp <= k[b].timestamp {
      assert EntryWithin(cfg, elapsed, k[a]);
    }
  }
}
