/** What the peers receive in a complete capture of each scenario. */
module RelayScenarios {
  import opened Common
  import opened RelayTypes
  import opened RelayCore
  import opened RelayLedger
  import opened RelaySettled
  import opened RelayTallies
  import opened RelayOrder
  import opened RelayRuns
  import opened RelayMachine
  import opened RelayHolds
  import opened RelayBudget
  import opened RelayFinal
  import opened RelayInvariant
  import opened RelaySafety
  import opened RelayVerdict
  import opened RelayPublication

  // ---- edits of a sequence ----

  datatype Edit = Same | Without(at: nat) | WithoutTwo(at: nat) | Doubled(at: nat) | Swapped(at: nat)

  predicate Applies(e: Edit, size: nat) {
    match e
    case Same => true
    case Without(at) => at < size
    case Doubled(at) => at < size
    case WithoutTwo(at) => at + 1 < size
    case Swapped(at) => at + 1 < size
  }

  function Edited<T>(s: seq<T>, e: Edit): seq<T>
    requires Applies(e, |s|)
  {
    match e
    case Same => s
    case Without(at) => s[..at] + s[at + 1..]
    case WithoutTwo(at) => s[..at] + s[at + 2..]
    case Doubled(at) => s[..at + 1] + s[at..]
    case Swapped(at) => s[..at] + [s[at + 1], s[at]] + s[at + 2..]
  }

  /** The edit that a scenario stands for, in each direction. */
  predicate Intends(scenario: Scenario, d: Direction, e: Edit) {
    match scenario
    case DropServerRuntime => if d == ServerToClient then e.Without? else e.Same?
    case DropTwoServerRuntime => if d == ServerToClient then e.WithoutTwo? else e.Same?
    case DuplicateServerRuntime => if d == ServerToClient then e.Doubled? else e.Same?
    case ReorderServerRuntime => if d == ServerToClient then e.Swapped? else e.Same?
    case DropClientMove => if d == ClientToServer then e.Without? else e.Same?
    case DelayClientMove => e.Same?
    case Undisturbed => e.Same?
    case Reconnect => e.Same?
  }

  function OrdinalNamed(p: Perturbation, d: Direction): nat {
    if d == ClientToServer then p.clientOrdinal else p.serverOrdinal
  }

  // ---- lists of accepted datagrams ----

  ghost predicate Forwards(l: seq<Item>) {
    forall i :: 0 <= i < |l| ==> l[i].action == Forward
  }

  lemma {:induction false} ForwardsFirst(a: seq<Item>, b: seq<Item>)
    requires Forwards(a)
    ensures Delivered(a + b, true) == Indices(a) + Delivered(b, true)
  {
    if a == [] {
      assert a + b == b && Indices(a) + Delivered(b, true) == Delivered(b, true);
    } else {
      assert (a + b)[0] == a[0] && (a + b)[1..] == a[1..] + b;
      ForwardsFirst(a[1..], b);
      assert Indices(a) == [a[0].index] + Indices(a[1..]);
    }
  }

  lemma ForwardsOnly(a: seq<Item>)
    requires Forwards(a)
    ensures Delivered(a, true) == Indices(a)
  {
    ForwardsFirst(a, []);
    assert a + [] == a && Delivered([], true) == [];
  }

  lemma DroppedFirst(x: Item, rest: seq<Item>)
    requires x.action == Drop
    ensures Delivered([x] + rest, true) == Delivered(rest, true)
  {
    assert ([x] + rest)[1..] == rest;
  }

  lemma DoubledFirst(x: Item, rest: seq<Item>)
    requires x.action == Duplicate
    ensures Delivered([x] + rest, true) == [x.index, x.index] + Delivered(rest, true)
  {
    assert ([x] + rest)[1..] == rest;
  }

  lemma IndicesConcatenate(a: seq<Item>, b: seq<Item>)
    ensures Indices(a + b) == Indices(a) + Indices(b)
  {
  }

  lemma NothingDelivered()
    ensures Delivered([], true) == []
  {
  }

  lemma FrontForward(f: Item, more: seq<Item>)
    requires f.action == Forward
    ensures FirstForward([f] + more) == 0
  {
  }

  /** A hold and the forward that releases it. */
  lemma HeldThen(x: Item, f: Item, more: seq<Item>)
    requires IsHold(x.action) && f.action == Forward && Forwards(more)
    ensures Delivered([x] + ([f] + more), true) == Pair(x, f) + Indices(more)
  {
    HoldDelivered(x, [f] + more, true);
    FrontForward(f, more);
    NothingDelivered();
    ForwardsOnly(more);
    hide Delivered, FirstForward, Indices, Pair;
    assert ([f] + more)[..0] == [] && ([f] + more)[0] == f && ([f] + more)[0 + 1..] == more;
  }

  lemma HeldFirst(x: Item, rest: seq<Item>)
    requires IsHold(x.action) && Forwards(rest)
    ensures rest == [] ==> Delivered([x] + rest, true) == [x.index]
    ensures rest != [] && x.action == HoldForDelay ==> Delivered([x] + rest, true) == [x.index] + Indices(rest)
    ensures rest != [] && x.action == HoldForReorder
            ==> Delivered([x] + rest, true) == [rest[0].index, x.index] + Indices(rest[1..])
  {
    if rest == [] {
      HoldDelivered(x, rest, true);
      NothingDelivered();
    } else {
      var f, more := rest[0], rest[1..];
      assert [f] + more == rest;
      HeldThen(x, f, more);
      IndicesConcatenate([f], more);
      IndicesOfOne(f);
      hide Delivered, Indices;
      if x.action == HoldForDelay { Regrouped([x.index], f.index, Indices(more)); }
    }
  }

  lemma IndicesOfOne(x: Item)
    ensures Indices([x]) == [x.index]
  {
  }

  lemma Regrouped(a: seq<nat>, x: nat, b: seq<nat>)
    ensures a + [x] + b == a + ([x] + b)
  {
  }

  lemma EditsAround(a: seq<nat>, x: nat, b: seq<nat>)
    ensures var s, q := a + ([x] + b), |a|;
            && Edited(s, Without(q)) == a + b
            && Edited(s, Doubled(q)) == a + ([x, x] + b)
  {
    var s, q := a + ([x] + b), |a|;
    assert s[..q] == a && s[q + 1..] == b && s[q..] == [x] + b && s[..q + 1] == a + [x];
  }

  lemma SwapAround(a: seq<nat>, x: nat, y: nat, b: seq<nat>)
    ensures var s, q := a + ([x] + ([y] + b)), |a|;
            && Edited(s, Swapped(q)) == a + ([y, x] + b)
            && Edited(s, WithoutTwo(q)) == a + b
  {
    var s, q := a + ([x] + ([y] + b)), |a|;
    assert s[..q] == a && s[q + 2..] == b && s[q] == x && s[q + 1] == y;
  }

  /** Two forwarded stretches around one item. */
  lemma Around(a: seq<Item>, x: Item, b: seq<Item>)
    requires Forwards(a)
    ensures var l := a + ([x] + b);
            && Delivered(l, true) == Indices(a) + Delivered([x] + b, true)
            && Indices(l) == Indices(a) + ([x.index] + Indices(b)) && |Indices(a)| == |a|
  {
    ForwardsFirst(a, [x] + b);
    IndicesConcatenate(a, [x] + b);
    IndicesConcatenate([x], b);
    assert Indices([x]) == [x.index];
  }

  lemma OneEdit(a: seq<Item>, x: Item, b: seq<Item>)
    requires Forwards(a) && Forwards(b)
    ensures var l, q := a + ([x] + b), |a|;
            && (x.action == Drop ==> Delivered(l, true) == Edited(Indices(l), Without(q)))
            && (x.action == Duplicate ==> Delivered(l, true) == Edited(Indices(l), Doubled(q)))
            && (x.action == HoldForDelay ==> Delivered(l, true) == Indices(l))
            && (x.action == HoldForReorder && b != [] ==> Delivered(l, true) == Edited(Indices(l), Swapped(q)))
  {
    Around(a, x, b);
    EditsAround(Indices(a), x.index, Indices(b));
    if x.action == Drop { DroppedFirst(x, b); ForwardsOnly(b); }
    if x.action == Duplicate { DoubledFirst(x, b); ForwardsOnly(b); }
    if IsHold(x.action) { HeldEdit(a, x, b); }
    hide Delivered, Indices, Edited;
  }

  lemma HeldEdit(a: seq<Item>, x: Item, b: seq<Item>)
    requires Forwards(a) && Forwards(b) && IsHold(x.action)
    ensures var l, q := a + ([x] + b), |a|;
            && (x.action == HoldForDelay ==> Delivered(l, true) == Indices(l))
            && (x.action == HoldForReorder && b != [] ==> Delivered(l, true) == Edited(Indices(l), Swapped(q)))
  {
    Around(a, x, b);
    HeldFirst(x, b);
    if b == [] {
      assert Indices(b) == [];
    } else {
      assert b == [b[0]] + b[1..];
      IndicesConcatenate([b[0]], b[1..]);
      assert Indices([b[0]]) == [b[0].index];
      SwapAround(Indices(a), x.index, b[0].index, Indices(b[1..]));
    }
    hide Delivered, Indices, Edited;
  }

  lemma TwoDropped(a: seq<Item>, x: Item, y: Item, b: seq<Item>)
    requires Forwards(a) && Forwards(b) && x.action == Drop && y.action == Drop
    ensures var l := a + ([x] + ([y] + b));
            Delivered(l, true) == Edited(Indices(l), WithoutTwo(|a|))
  {
    Around(a, x, [y] + b);
    IndicesConcatenate([y], b);
    assert Indices([y]) == [y.index];
    DroppedFirst(x, [y] + b);
    DroppedFirst(y, b);
    ForwardsOnly(b);
    SwapAround(Indices(a), x.index, y.index, Indices(b));
    hide Delivered, Indices, Edited;
  }

  // ---- the lane of a complete capture ----

  lemma {:induction false} LaneHas(j: seq<Entry>, d: Direction, i: nat) returns (q: nat)
    requires i < |j| && j[i].direction == d && !j[i].wrongSource
    ensures q < |Lane(j, d)| && Lane(j, d)[q] == Item(i, j[i].action)
  {
    var n := |j| - 1;
    if i == n {
      q := |Lane(j[..n], d)|;
    } else {
      q := LaneHas(j[..n], d, i);
    }
  }

  lemma {:induction false} LaneIncreases(j: seq<Entry>, d: Direction)
    ensures forall p, q :: 0 <= p < q < |Lane(j, d)| ==> Lane(j, d)[p].index < Lane(j, d)[q].index
  {
    if j != [] {
      LaneIncreases(j[..|j| - 1], d);
      LaneAccepted(j[..|j| - 1], d);
    }
  }

  ghost predicate Treated(cfg: Config, j: seq<Entry>) {
    forall i :: 0 <= i < |j| && !j[i].wrongSource ==>
      j[i].action == CaptureAction(cfg.scenario, j[i].direction, j[i].directionOrdinal, cfg.perturbation)
  }

  ghost predicate OrdinalsGrow(j: seq<Entry>) {
    forall i, k :: 0 <= i < k < |j| && j[i].direction == j[k].direction ==> j[i].directionOrdinal < j[k].directionOrdinal
  }

  /** What is known of a complete capture's journal. */
  ghost predicate Captured(cfg: Config, j: seq<Entry>) {
    && Treated(cfg, j) && OrdinalsGrow(j)
    && (forall i :: 0 <= i < |j| ==> (j[i].wrongSource <==> j[i].action == AuxiliaryObservation))
    && |Perturbed(j)| == ExpectedPerturbations(cfg.scenario)
    && (forall i :: 0 <= i < |j| && j[i].action == HoldForReorder ==> exists k :: i < k < |j| && IsForward(j[k], j[i].direction))
  }

  lemma ShapeOrdinals(c: Core)
    requires Shape(c)
    ensures OrdinalsGrow(c.journal)
  {
    var j := c.journal;
    forall i, k | 0 <= i < k < |j| && j[i].direction == j[k].direction ensures j[i].directionOrdinal < j[k].directionOrdinal {
      assert EntryShape(j, i) && EntryShape(j, k);
      CountGrows(j, i, k);
    }
  }

  /** Items of a lane come from accepted entries, in order. */
  ghost predicate LaneOf(l: seq<Item>, j: seq<Entry>, d: Direction) {
    && (forall i :: 0 <= i < |l| ==> FromJournal(l[i], j, d))
    && (forall p, q :: 0 <= p < q < |l| ==> l[p].index < l[q].index)
  }

  lemma LaneIsLane(j: seq<Entry>, d: Direction)
    ensures LaneOf(Lane(j, d), j, d)
  {
    LaneAccepted(j, d);
    LaneIncreases(j, d);
  }

  lemma LaneActions(cfg: Config, j: seq<Entry>, d: Direction, p: nat)
    requires Captured(cfg, j) && LaneOf(Lane(j, d), j, d) && p < |Lane(j, d)|
    ensures var x := Lane(j, d)[p];
            && x.index < |j| && x.action == CaptureAction(cfg.scenario, d, j[x.index].directionOrdinal, cfg.perturbation)
  {
    assert FromJournal(Lane(j, d)[p], j, d);
  }

  /** An entry that was not just forwarded sits in the lane of its direction. */
  lemma PerturbedInLane(cfg: Config, j: seq<Entry>, i: int) returns (q: nat)
    requires Captured(cfg, j) && i in Perturbed(j)
    ensures 0 <= i < |j| && q < |Lane(j, j[i].direction)| && Lane(j, j[i].direction)[q] == Item(i, j[i].action)
    ensures j[i].action != Forward
            && j[i].action == CaptureAction(cfg.scenario, j[i].direction, j[i].directionOrdinal, cfg.perturbation)
  {
    q := LaneHas(j, j[i].direction, i);
  }

  lemma OtherOrdinals(cfg: Config, j: seq<Entry>, d: Direction, q: nat, p: nat)
    requires Captured(cfg, j) && LaneOf(Lane(j, d), j, d) && p < |Lane(j, d)| && q < |Lane(j, d)|
    ensures var l := Lane(j, d);
            && l[p].index < |j| && l[q].index < |j|
            && (p < q ==> j[l[p].index].directionOrdinal < j[l[q].index].directionOrdinal)
            && (q < p ==> j[l[q].index].directionOrdinal < j[l[p].index].directionOrdinal)
  {
    assert FromJournal(Lane(j, d)[p], j, d) && FromJournal(Lane(j, d)[q], j, d);
  }

  lemma SplitAt(l: seq<Item>, q: nat)
    requires q < |l|
    ensures l == l[..q] + ([l[q]] + l[q + 1..])
  {
  }

  /** A reorder that was carried out has a forward behind it. */
  lemma ReorderFollowed(cfg: Config, j: seq<Entry>, d: Direction, q: nat)
    requires Captured(cfg, j) && q < |Lane(j, d)| && Lane(j, d)[q].action == HoldForReorder
    ensures q + 1 < |Lane(j, d)|
  {
    LaneIsLane(j, d);
    var i := Lane(j, d)[q].index;
    assert FromJournal(Lane(j, d)[q], j, d);
    var k :| i < k < |j| && IsForward(j[k], j[i].direction);
    var r := LaneHas(j, d, k);
  }

  /** All others with one ordinal only to match are forwarded. */
  lemma OthersForwarded(cfg: Config, j: seq<Entry>, d: Direction, q: nat)
    requires Captured(cfg, j) && ExpectedPerturbations(cfg.scenario) == 1 && q < |Lane(j, d)| && Lane(j, d)[q].index < |j|
    requires j[Lane(j, d)[q].index].directionOrdinal == OrdinalNamed(cfg.perturbation, d)
    ensures Forwards(Lane(j, d)[..q]) && Forwards(Lane(j, d)[q + 1..])
  {
    var l := Lane(j, d);
    LaneIsLane(j, d);
    hide Perturbed, Lane, Captured, LaneOf;
    forall p | 0 <= p < |l| && p != q ensures l[p].action == Forward {
      LaneActions(cfg, j, d, p);
      OtherOrdinals(cfg, j, d, q, p);
    }
  }

  /** The one datagram that a scenario singles out. */
  lemma SingledOut(cfg: Config, j: seq<Entry>, d: Direction) returns (q: nat)
    requires Captured(cfg, j) && ExpectedPerturbations(cfg.scenario) == 1
    requires d == if cfg.scenario == DropClientMove || cfg.scenario == DelayClientMove then ClientToServer else ServerToClient
    ensures var l := Lane(j, d);
            && q < |l| && Forwards(l[..q]) && Forwards(l[q + 1..]) && l[q].index < |j|
            && j[l[q].index].directionOrdinal == OrdinalNamed(cfg.perturbation, d)
            && l[q].action == CaptureAction(cfg.scenario, d, OrdinalNamed(cfg.perturbation, d), cfg.perturbation)
            && (l[q].action == HoldForReorder ==> q + 1 < |l|)
  {
    assert |Perturbed(j)| == 1 && Perturbed(j) != {};
    var i :| i in Perturbed(j);
    hide Perturbed, Lane, Captured, Forwards;
    q := PerturbedInLane(cfg, j, i);
    OthersForwarded(cfg, j, d, q);
    if Lane(j, d)[q].action == HoldForReorder { ReorderFollowed(cfg, j, d, q); }
  }

  /** Datagrams whose ordinals follow each other are neighbours in their lane. */
  lemma Neighbours(cfg: Config, j: seq<Entry>, d: Direction, q: nat, r: nat)
    requires Captured(cfg, j) && q < |Lane(j, d)| && r < |Lane(j, d)|
    requires Lane(j, d)[q].index < |j| && Lane(j, d)[r].index < |j|
    requires j[Lane(j, d)[r].index].directionOrdinal == j[Lane(j, d)[q].index].directionOrdinal + 1
    ensures r == q + 1
  {
    LaneIsLane(j, d);
    hide Lane, Captured, LaneOf;
    OtherOrdinals(cfg, j, d, q, r);
    OtherOrdinals(cfg, j, d, q, q + 1);
    OtherOrdinals(cfg, j, d, q + 1, r);
  }

  lemma OthersTwoForwarded(cfg: Config, j: seq<Entry>, q: nat)
    requires Captured(cfg, j) && cfg.scenario == DropTwoServerRuntime && q + 1 < |Lane(j, ServerToClient)|
    requires Lane(j, ServerToClient)[q].index < |j| && Lane(j, ServerToClient)[q + 1].index < |j|
    requires j[Lane(j, ServerToClient)[q].index].directionOrdinal == cfg.perturbation.serverOrdinal
    requires j[Lane(j, ServerToClient)[q + 1].index].directionOrdinal == cfg.perturbation.serverOrdinal + 1
    ensures Forwards(Lane(j, ServerToClient)[..q]) && Forwards(Lane(j, ServerToClient)[q + 2..])
  {
    var l := Lane(j, ServerToClient);
    LaneIsLane(j, ServerToClient);
    hide Lane, Captured, LaneOf;
    forall p | 0 <= p < |l| && p != q && p != q + 1 ensures l[p].action == Forward {
      LaneActions(cfg, j, ServerToClient, p);
      OtherOrdinals(cfg, j, ServerToClient, q, p);
      OtherOrdinals(cfg, j, ServerToClient, q + 1, p);
    }
  }

  /** The two datagrams that are dropped. */
  lemma TwoSingledOut(cfg: Config, j: seq<Entry>) returns (q: nat)
    requires Captured(cfg, j) && cfg.scenario == DropTwoServerRuntime
    ensures var l := Lane(j, ServerToClient);
            && q + 1 < |l| && Forwards(l[..q]) && Forwards(l[q + 2..]) && l[q].index < |j|
            && j[l[q].index].directionOrdinal == cfg.perturbation.serverOrdinal
            && l[q].action == Drop && l[q + 1].action == Drop
  {
    var l, k := Lane(j, ServerToClient), cfg.perturbation.serverOrdinal;
    assert |Perturbed(j)| == 2;
    var i, i' := TwoElements(j);
    assert OrdinalsGrow(j);
    q := PerturbedInLane(cfg, j, i);
    var r := PerturbedInLane(cfg, j, i');
    if j[i].directionOrdinal > j[i'].directionOrdinal { q, r := r, q; }
    hide Perturbed, Lane, Captured, Forwards;
    Neighbours(cfg, j, ServerToClient, q, r);
    OthersTwoForwarded(cfg, j, q);
  }

  lemma TwoElements(j: seq<Entry>) returns (a: int, b: int)
    requires |Perturbed(j)| == 2
    ensures a in Perturbed(j) && b in Perturbed(j) && a != b
  {
    assert Perturbed(j) != {};
    a :| a in Perturbed(j);
    assert Perturbed(j) != {a};
    b :| b in Perturbed(j) && b != a;
  }

  lemma PlainLane(cfg: Config, j: seq<Entry>, d: Direction)
    requires Captured(cfg, j)
    requires ExpectedPerturbations(cfg.scenario) == 0
             || d != if cfg.scenario == DropClientMove || cfg.scenario == DelayClientMove then ClientToServer else ServerToClient
    ensures Forwards(Lane(j, d))
  {
    var l := Lane(j, d);
    LaneIsLane(j, d);
    forall p | 0 <= p < |l| ensures l[p].action == Forward {
      LaneActions(cfg, j, d, p);
    }
  }

  /** What the wire carries of a complete capture's lane is its edit. */
  lemma LaneEdited(cfg: Config, j: seq<Entry>, d: Direction) returns (e: Edit)
    requires Captured(cfg, j)
    ensures var l := Lane(j, d);
            && Intends(cfg.scenario, d, e) && Applies(e, |l|) && |Indices(l)| == |l|
            && Delivered(l, true) == Edited(Indices(l), e)
            && (!e.Same? ==> l[e.at].index < |j| && j[l[e.at].index].directionOrdinal == OrdinalNamed(cfg.perturbation, d))
  {
    var l := Lane(j, d);
    hide Lane, Captured, Delivered, Indices;
    e := Same;
    assert |Indices(l)| == |l| by { IndicesLength(l); }
    if cfg.scenario == DropTwoServerRuntime && d == ServerToClient {
      var q := TwoSingledOut(cfg, j);
      e := WithoutTwo(q);
      SplitAt(l, q);
      SplitAt(l[q + 1..], 0);
      assert l[q + 1..][1..] == l[q + 2..];
      TwoDropped(l[..q], l[q], l[q + 1], l[q + 2..]);
    } else if ExpectedPerturbations(cfg.scenario) == 1
              && d == (if cfg.scenario == DropClientMove || cfg.scenario == DelayClientMove then ClientToServer else ServerToClient) {
      var q := SingledOut(cfg, j, d);
      SplitAt(l, q);
      OneEdit(l[..q], l[q], l[q + 1..]);
      e := match cfg.scenario
        case DropServerRuntime => Without(q)
        case DropClientMove => Without(q)
        case DuplicateServerRuntime => Doubled(q)
        case ReorderServerRuntime => Swapped(q)
        case _ => Same;
    } else {
      PlainLane(cfg, j, d);
      ForwardsOnly(l);
    }
  }

  lemma IndicesLength(l: seq<Item>)
    ensures |Indices(l)| == |l|
  {
  }

  // ---- complete captures ----

  lemma DealtIsFollowed(c: Core, functional: bool)
    requires DeadlineReleases(c.journal) && forall i :: 0 <= i < |c.journal| ==> DealtWith(c.journal, i, functional)
    ensures var j := c.journal;
            forall i :: 0 <= i < |j| && j[i].action == HoldForReorder ==> exists k :: i < k < |j| && IsForward(j[k], j[i].direction)
  {
    var j := c.journal;
    forall i | 0 <= i < |j| && j[i].action == HoldForReorder ensures exists k :: i < k < |j| && IsForward(j[k], j[i].direction) {
      assert DealtWith(j, i, functional);
      assert !NoForward(j, j[i].direction, i, |j|);
    }
  }

  lemma WithinIsTreated(cfg: Config, j: seq<Entry>, elapsed: nat, auxiliary: nat)
    requires Within(cfg, j, elapsed, auxiliary)
    ensures Treated(cfg, j)
  {
    forall i | 0 <= i < |j| && !j[i].wrongSource
      ensures j[i].action == CaptureAction(cfg.scenario, j[i].direction, j[i].directionOrdinal, cfg.perturbation)
    {
      assert EntryWithin(cfg, elapsed, j[i]);
    }
  }

  lemma LedgerAndReleases(c: Core)
    requires Ledger(c) && Final(c)
    ensures Shape(c) && DeadlineReleases(c.journal)
  {
    hide Tallied, Plausible, HoldHistory;
  }

  lemma CompleteIsCaptured(cfg: Config, ticks: seq<Tick>, clientSent: bool, serverSent: bool, t: RelayMachine.Transition)
    requires var s := Finish(cfg, ticks, clientSent, serverSent); s.phase == Left && Complete(s, t)
    ensures Captured(cfg, Finish(cfg, ticks, clientSent, serverSent).core.journal)
  {
    var s := Finish(cfg, ticks, clientSent, serverSent);
    hide Finish, Ledger, Final, Within, Complete, DealtWith, Perturbed, LinkSound, SlotsSound, Attributed, Shape, DeadlineReleases;
    CompleteMeansDelivered(cfg, ticks, clientSent, serverSent, t);
    EveryExitIsSound(cfg, ticks, clientSent, serverSent);
    EveryExitIsFinal(cfg, ticks, clientSent, serverSent);
    LedgerAndReleases(s.core);
    DealtIsFollowed(s.core, cfg.functional);
    ShapeOrdinals(s.core);
    WithinIsTreated(cfg, s.core.journal, s.status.elapsed, s.status.auxiliaryCount);
    WrongOnesPermitted(s, t);
  }

  ghost predicate Received(c: Core, d: Direction, e: Edit) {
    var l := Lane(c.journal, d);
    && Applies(e, |l|) && |Indices(l)| == |l|
    && (forall i :: 0 <= i < |l| ==> l[i].index < |c.journal|)
    && WireLane(c.wire, d) == Edited(Indices(l), e)
    && EmittedPayloads(c.wire, d) == Edited(ObservedPayloads(c.journal, l), e)
  }

  lemma EditedPayloads(c: Core, d: Direction, e: Edit)
    requires var l := Lane(c.journal, d);
             Applies(e, |l|) && |Indices(l)| == |l| && WireLane(c.wire, d) == Edited(Indices(l), e)
    requires forall i :: 0 <= i < |Lane(c.journal, d)| ==> Lane(c.journal, d)[i].index < |c.journal|
    requires forall k :: 0 <= k < |c.wire| ==> OnWire(c.journal, c.wire, k)
    ensures Received(c, d, e)
  {
    var j, l := c.journal, Lane(c.journal, d);
    hide Lane, EmittedPayloads, WireLane, Edited;
    EmittedBytes(j, c.wire, d);
    EditedMaps(j, Indices(l), ObservedPayloads(j, l), e);
    SamePayloads(EmittedPayloads(c.wire, d), Edited(ObservedPayloads(j, l), e));
  }

  lemma SamePayloads(a: seq<string>, b: seq<string>)
    requires |a| == |b| && forall p :: 0 <= p < |a| ==> a[p] == b[p]
    ensures a == b
  {
  }

  /** Where an element of the edited sequence comes from. */
  function Origin(e: Edit, p: nat): nat {
    match e
    case Same => p
    case Without(at) => if p < at then p else p + 1
    case WithoutTwo(at) => if p < at then p else p + 2
    case Doubled(at) => if p <= at then p else p - 1
    case Swapped(at) => if p == at then at + 1 else if p == at + 1 then at else p
  }

  function SizeAfter(e: Edit, size: nat): int {
    match e
    case Same => size
    case Without(_) => size - 1
    case WithoutTwo(_) => size - 2
    case Doubled(_) => size + 1
    case Swapped(_) => size
  }

  lemma EditedAt<T>(s: seq<T>, e: Edit, p: nat)
    requires Applies(e, |s|)
    ensures |Edited(s, e)| == SizeAfter(e, |s|)
    ensures p < |Edited(s, e)| ==> Origin(e, p) < |s| && Edited(s, e)[p] == s[Origin(e, p)]
  {
  }

  /** Editing the positions edits the payloads. */
  lemma EditedMaps(j: seq<Entry>, l: seq<nat>, payloads: seq<string>, e: Edit)
    requires |l| == |payloads| && Applies(e, |l|)
    requires forall i :: 0 <= i < |l| ==> l[i] < |j| && payloads[i] == j[l[i]].payload
    ensures |Edited(l, e)| == |Edited(payloads, e)|
    ensures forall p :: 0 <= p < |Edited(l, e)| ==>
              Edited(l, e)[p] < |j| && Edited(payloads, e)[p] == j[Edited(l, e)[p]].payload
  {
    var from: seq<nat>, to: seq<string> := Edited<nat>(l, e), Edited<string>(payloads, e);
    EditedAt<nat>(l, e, 0);
    EditedAt<string>(payloads, e, 0);
    forall p | 0 <= p < |from| ensures from[p] < |j| && to[p] == j[from[p]].payload {
      EditedAt<nat>(l, e, p);
      EditedAt<string>(payloads, e, p);
    }
  }

  /** In a complete capture each peer has received exactly what the scenario intends: the accepted datagrams
      of the other side in their order, byte for byte, without the one (or the two) with the configured
      ordinal, with that one twice, or with that one behind its successor. */
  lemma PeersReceive(cfg: Config, ticks: seq<Tick>, clientSent: bool, serverSent: bool, t: RelayMachine.Transition, d: Direction)
    returns (e: Edit)
    requires var s := Finish(cfg, ticks, clientSent, serverSent); s.phase == Left && Complete(s, t)
    ensures var c := Finish(cfg, ticks, clientSent, serverSent).core;
            && Intends(cfg.scenario, d, e) && Received(c, d, e)
            && (!e.Same? ==> c.journal[Lane(c.journal, d)[e.at].index].directionOrdinal == OrdinalNamed(cfg.perturbation, d))
  {
    var c := Finish(cfg, ticks, clientSent, serverSent).core;
    CompleteIsCaptured(cfg, ticks, clientSent, serverSent, t);
    FinishDelivers(cfg, ticks, clientSent, serverSent, d);
    hide Finish, Captured, Complete, Orderly, Delivered, Lane, WireLane, OnWire, Edited, Indices, Received;
    e := LaneEdited(cfg, c.journal, d);
    EditedPayloads(c, d, e);
    ReceivedApplies(c, d, e);
  }

  lemma ReceivedApplies(c: Core, d: Direction, e: Edit)
    requires Received(c, d, e)
    ensures Applies(e, |Lane(c.journal, d)|) && forall i :: 0 <= i < |Lane(c.journal, d)| ==> Lane(c.journal, d)[i].index < |c.journal|
  {
  }
}
