/**
 * Runs of the placement loop: what every run keeps and costs, and for which workloads the loop
 * settles on its targets.
 */
module PlacementRuns {
  import opened GoInt
  import opened Strconv
  import opened Configuration
  import opened ReplicaStates
  import opened Observation
  import opened Selection
  import opened Placement

  ghost predicate IsRun(states: seq<Cluster>, rounds: seq<Round>, a: Aim) {
    && |states| == |rounds| + 1
    && Settled(states[0], a.total)
    && forall i :: 0 <= i < |rounds| ==> Step(states[i], rounds[i], states[i + 1], a)
  }

  /** Every webhook call of the run read its workload and a fresh, classified snapshot. */
  ghost predicate AllHealthy(rounds: seq<Round>) {
    forall i :: 0 <= i < |rounds| && rounds[i].Replaced? ==> rounds[i].read.Healthy()
  }

  /** How many of the first `n` flags are set. */
  ghost function Count(flags: seq<bool>, n: nat): (k: nat)
    requires n <= |flags|
    ensures k <= n
  {
    if n == 0 then 0 else Count(flags, n - 1) + (if flags[n - 1] then 1 else 0)
  }

  /** How many rounds evicted a pod. */
  ghost function Evictions(rounds: seq<Round>): nat {
    var flags := seq(|rounds|, i requires 0 <= i < |rounds| => rounds[i].Replaced?);
    Count(flags, |flags|)
  }

  /** How many rounds were wasted. */
  ghost function WastedRounds(states: seq<Cluster>, rounds: seq<Round>, d: Split): nat
    requires |states| == |rounds| + 1
  {
    var flags := seq(|rounds|, i requires 0 <= i < |rounds| => Wasted(states[i], rounds[i], d));
    Count(flags, |flags|)
  }

  lemma StateIsSettled(states: seq<Cluster>, rounds: seq<Round>, n: nat, a: Aim)
    requires IsRun(states, rounds, a) && n <= |rounds|
    ensures Settled(states[n], a.total)
    ensures n < |rounds| ==> Step(states[n], rounds[n], states[n + 1], a)
  {
    if n > 0 {
      assert Step(states[n - 1], rounds[n - 1], states[n - 1 + 1], a);
    }
  }

  /** Each round that counts and is not discounted takes one off; so do all of them together. */
  lemma {:induction false} Telescope(values: seq<int>, counted: seq<bool>, discounted: seq<bool>, n: nat)
    requires |counted| == |discounted| && |values| == |counted| + 1 && n <= |counted|
    requires forall i :: 0 <= i < |counted| ==>
               && (discounted[i] ==> counted[i])
               && values[i + 1] == values[i] - (if counted[i] && !discounted[i] then 1 else 0)
    ensures Count(counted, n) - Count(discounted, n) == values[0] - values[n]
    ensures Count(discounted, n) <= Count(counted, n)
  {
    if n > 0 {
      Telescope(values, counted, discounted, n - 1);
      assert values[n - 1 + 1] == values[n - 1] - (if counted[n - 1] && !discounted[n - 1] then 1 else 0);
    }
  }

  /**
   * Over every run, patched or not and whatever was read, the evictions that were not wasted are
   * exactly the progress made to the targets.
   */
  lemma RunAccounting(states: seq<Cluster>, rounds: seq<Round>, a: Aim)
    requires a.total >= 0 && IsRun(states, rounds, a)
    ensures WastedRounds(states, rounds, a.Desired()) <= Evictions(rounds)
    ensures Evictions(rounds) - WastedRounds(states, rounds, a.Desired())
         == Gap(states[0], a.Desired()) - Gap(states[|rounds|], a.Desired())
  {
    var d := a.Desired();
    var gaps := seq(|states|, i requires 0 <= i < |states| => Gap(states[i], d));
    var counted := seq(|rounds|, i requires 0 <= i < |rounds| => rounds[i].Replaced?);
    var discounted := seq(|rounds|, i requires 0 <= i < |rounds| => Wasted(states[i], rounds[i], d));
    forall i | 0 <= i < |rounds|
      ensures discounted[i] ==> counted[i]
      ensures gaps[i + 1] == gaps[i] - (if counted[i] && !discounted[i] then 1 else 0)
    {
      StateIsSettled(states, rounds, i, a);
      StepGap(states[i], rounds[i], states[i + 1], a);
    }
    Telescope(gaps, counted, discounted, |rounds|);
  }

  lemma {:induction false} FloorChain(values: seq<int>, target: int, n: nat)
    requires n < |values|
    requires forall i :: 0 <= i < |values| - 1 ==> values[i + 1] >= Min(values[i], target)
    ensures values[n] >= Min(values[0], target)
  {
    if n > 0 {
      FloorChain(values, target, n - 1);
      assert values[n - 1 + 1] >= Min(values[n - 1], target);
    }
  }

  lemma FloorOfStates(states: seq<Cluster>, rounds: seq<Round>, n: nat, a: Aim)
    requires a.total >= 0 && IsRun(states, rounds, a) && n <= |rounds|
    ensures states[n].Counts().onDemand >= Min(states[0].Counts().onDemand, a.Desired().onDemand)
  {
    var target := a.Desired().onDemand;
    var values := seq(|states|, i requires 0 <= i < |states| => states[i].Counts().onDemand);
    forall i | 0 <= i < |rounds| ensures values[i + 1] >= Min(values[i], target) {
      StateIsSettled(states, rounds, i, a);
      StepFloor(states[i], rounds[i], states[i + 1], a);
    }
    FloorChain(values, target, n);
  }

  /**
   * Over every run, wherever replacements land, no state has fewer on-demand pods than the lesser of
   * the number at the start and the target, nor has any moment between an eviction and the
   * replacement.
   */
  lemma OnDemandFloor(states: seq<Cluster>, rounds: seq<Round>, n: nat, a: Aim)
    requires a.total >= 0 && IsRun(states, rounds, a) && n <= |rounds|
    ensures var floor := Min(states[0].Counts().onDemand, a.Desired().onDemand);
            && states[n].Counts().onDemand >= floor
            && (n < |rounds| && rounds[n].Replaced? ==>
                  rounds[n].victim < |states[n].pods| && states[n].Evict(rounds[n].victim).Counts().onDemand >= floor)
  {
    FloorOfStates(states, rounds, n, a);
    StateIsSettled(states, rounds, n, a);
    if n < |rounds| {
      StepFloor(states[n], rounds[n], states[n + 1], a);
    }
  }

  lemma {:induction false} NoneCounted(flags: seq<bool>, n: nat)
    requires n <= |flags| && forall i :: 0 <= i < n ==> !flags[i]
    ensures Count(flags, n) == 0
  {
    if n > 0 {
      NoneCounted(flags, n - 1);
    }
  }

  lemma NotWasted(c: Cluster, round: Round, c': Cluster, a: Aim)
    requires a.Valid() && a.annotated && Step(c, round, c', a) && (round.Replaced? ==> round.read.Healthy())
    ensures !Wasted(c, round, a.Desired())
  {
    if Wasted(c, round, a.Desired()) {
      WasteHasACause(c, round, c', a);
    }
  }

  /** An annotated workload wastes no round on a healthy read. */
  lemma NoWaste(states: seq<Cluster>, rounds: seq<Round>, a: Aim)
    requires a.Valid() && a.annotated && IsRun(states, rounds, a) && AllHealthy(rounds)
    ensures WastedRounds(states, rounds, a.Desired()) == 0
  {
    var d := a.Desired();
    var flags := seq(|rounds|, i requires 0 <= i < |rounds| => Wasted(states[i], rounds[i], d));
    forall i | 0 <= i < |rounds| ensures !flags[i] {
      NotWasted(states[i], rounds[i], states[i + 1], a);
    }
    NoneCounted(flags, |rounds|);
  }

  /**
   * The closed loop. For an annotated workload, when the webhook's reads are healthy, a run is
   * quiescent (the controller selects nothing) if and only if it has made exactly
   * |spot - TargetSpot| evictions; then the workload is on target, and no longer run evicts again.
   */
  lemma ClosedLoop(states: seq<Cluster>, rounds: seq<Round>, a: Aim)
    requires a.Valid() && a.annotated && IsRun(states, rounds, a) && AllHealthy(rounds)
    ensures var d := a.Desired();
            var end := states[|rounds|];
            var evictions := Evictions(rounds);
            && IsInt32(d.spot) && IsInt32(d.onDemand) && Settled(end, a.total)
            && evictions <= Gap(states[0], d)
            && (Selected(end.View(), d.spot, d.onDemand) == [] <==> evictions == Gap(states[0], d))
            && (evictions == Gap(states[0], d) <==> end.Counts() == d)
            && (end.Counts() == d ==> forall round, c :: Step(end, round, c, a) ==> round.Skipped?)
  {
    var n := |rounds|;
    RunAccounting(states, rounds, a);
    NoWaste(states, rounds, a);
    StateIsSettled(states, rounds, n, a);
    EvictsExactlyOffTarget(states[n], a);
  }

  /** Off target, for a managed and annotated workload, a round that evicts and closes the gap is always possible. */
  lemma ProgressIsPossible(c: Cluster, a: Aim)
    requires a.Valid() && a.managed && a.annotated && Settled(c, a.total) && c.Counts() != a.Desired()
    ensures exists round, c' :: Step(c, round, c', a) && Gap(c', a.Desired()) < Gap(c, a.Desired())
  {
    var i, read := HealthyRound(c, a);
    var landed := Admit(a, read).kind;
    var c' := RoundCanEnd(c, i, read, landed, a);
    var round := Replaced(i, read, landed);
    if Wasted(c, round, a.Desired()) {
      WasteHasACause(c, round, c', a);
    }
    StepGap(c, round, c', a);
  }

  /** Without an annotation a round can evict and, with a healthy read, change nothing. */
  lemma FutileRound(c: Cluster, a: Aim) returns (round: Round, next: Cluster)
    requires a.total >= 0 && a.managed && !a.annotated && Settled(c, a.total) && c.Counts() != a.Desired()
    ensures Step(c, round, next, a) && round.Replaced? && round.read.Healthy()
    ensures next.Counts() == c.Counts()
  {
    var i, read := HealthyRound(c, a);
    var landed := ExcessClass(c, a.Desired());
    next := RoundCanEnd(c, i, read, landed, a);
    MidRound(c, i, a);
    round := Replaced(i, read, landed);
  }

  /** So evicting for ever and never getting closer is possible. */
  lemma {:induction false} UnannotatedMayEvictForEver(c: Cluster, a: Aim, n: nat)
    returns (states: seq<Cluster>, rounds: seq<Round>)
    requires a.total >= 0 && a.managed && !a.annotated && Settled(c, a.total) && c.Counts() != a.Desired()
    ensures IsRun(states, rounds, a) && AllHealthy(rounds) && states[0] == c
    ensures Evictions(rounds) == n && states[|rounds|].Counts() == c.Counts()
  {
    if n == 0 {
      states, rounds := [c], [];
    } else {
      states, rounds := UnannotatedMayEvictForEver(c, a, n - 1);
      StateIsSettled(states, rounds, |rounds|, a);
      var round, next := FutileRound(states[|rounds|], a);
      RunExtends(states, rounds, round, next, a);
      OneMoreEviction(rounds, round);
      states, rounds := states + [next], rounds + [round];
    }
  }

  lemma RunExtends(states: seq<Cluster>, rounds: seq<Round>, round: Round, next: Cluster, a: Aim)
    requires IsRun(states, rounds, a) && Step(states[|rounds|], round, next, a)
    ensures IsRun(states + [next], rounds + [round], a)
  {
    var longer, more := states + [next], rounds + [round];
    forall i | 0 <= i < |more| ensures Step(longer[i], more[i], longer[i + 1], a) {
      if i < |rounds| {
        assert Step(states[i], rounds[i], states[i + 1], a);
      }
    }
  }

  lemma {:induction false} CountOfPrefix(flags: seq<bool>, flag: bool, n: nat)
    requires n <= |flags|
    ensures Count(flags + [flag], n) == Count(flags, n)
  {
    if n > 0 {
      CountOfPrefix(flags, flag, n - 1);
    }
  }

  lemma OneMoreEviction(rounds: seq<Round>, round: Round)
    requires round.Replaced?
    ensures Evictions(rounds + [round]) == Evictions(rounds) + 1
  {
    var flags := seq(|rounds|, i requires 0 <= i < |rounds| => rounds[i].Replaced?);
    var more := rounds + [round];
    assert seq(|more|, i requires 0 <= i < |more| => more[i].Replaced?) == flags + [true];
    CountOfPrefix(flags, true, |flags|);
  }

  /** Every healthy run that takes as many eviction steps as the gap asks for ends on target. */
  ghost predicate Settles(c: Cluster, a: Aim) {
    forall states: seq<Cluster>, rounds: seq<Round> ::
      IsRun(states, rounds, a) && AllHealthy(rounds) && states[0] == c
      && Evictions(rounds) >= Gap(c, a.Desired())
      ==> states[|rounds|].Counts() == a.Desired()
  }

  /** With healthy reads the loop of a managed workload settles exactly if it is annotated or on target. */
  lemma SettlesIffAnnotatedOrOnTarget(c: Cluster, a: Aim)
    requires a.Valid() && a.managed && Settled(c, a.total)
    ensures Settles(c, a) <==> a.annotated || c.Counts() == a.Desired()
  {
    if a.annotated || c.Counts() == a.Desired() {
      forall states: seq<Cluster>, rounds: seq<Round> |
        IsRun(states, rounds, a) && AllHealthy(rounds) && states[0] == c
        && Evictions(rounds) >= Gap(c, a.Desired())
        ensures states[|rounds|].Counts() == a.Desired()
      {
        var n := |rounds|;
        RunAccounting(states, rounds, a);
        if a.annotated {
          NoWaste(states, rounds, a);
        }
        StateIsSettled(states, rounds, n, a);
        EvictsExactlyOffTarget(c, a);
        EvictsExactlyOffTarget(states[n], a);
      }
    } else {
      var states, rounds := UnannotatedMayEvictForEver(c, a, Gap(c, a.Desired()));
    }
  }

  /** The same for a workload as it is written, with a label that passes the reconcilers' gate. */
  lemma WorkloadSettles(labels: map<string, string>, annotations: map<string, string>, replicas: Int32, c: Cluster)
    requires replicas >= 0 && ParseWorkloadConfiguration(labels, annotations).Accepted? && Settled(c, replicas)
    requires IsSpotalisEnabled(labels)
    ensures var a := AimOf(labels, annotations, replicas);
            Settles(c, a) <==> HasSpotalisAnnotations(annotations) || c.Counts() == a.Desired()
  {
    ParsedAimIsValid(labels, annotations, replicas);
    SettlesIffAnnotatedOrOnTarget(c, AimOf(labels, annotations, replicas));
  }

  // Which workloads may be evicted from for ever.

  /** A healthy run from here evicts this often. */
  ghost predicate MayEvict(c: Cluster, a: Aim, n: nat) {
    exists states: seq<Cluster>, rounds: seq<Round> ::
      IsRun(states, rounds, a) && AllHealthy(rounds) && states[0] == c && Evictions(rounds) == n
  }

  ghost predicate MayEvictForEver(c: Cluster, a: Aim) {
    forall n: nat :: MayEvict(c, a, n)
  }

  lemma NoEvictions(rounds: seq<Round>)
    requires forall i :: 0 <= i < |rounds| ==> rounds[i].Skipped?
    ensures Evictions(rounds) == 0
  {
    NoneCounted(seq(|rounds|, i requires 0 <= i < |rounds| => rounds[i].Replaced?), |rounds|);
  }

  /** A workload whose label the reconcilers' gate turns away is never evicted from. */
  lemma UnmanagedIsLeftAlone(states: seq<Cluster>, rounds: seq<Round>, a: Aim)
    requires IsRun(states, rounds, a) && !a.managed
    ensures Evictions(rounds) == 0 && states[|rounds|].Counts() == states[0].Counts()
  {
    forall i | 0 <= i < |rounds| ensures rounds[i].Skipped? {
      assert Step(states[i], rounds[i], states[i + 1], a);
    }
    NoEvictions(rounds);
    CountsStay(states, rounds, |rounds|, a);
  }

  lemma {:induction false} CountsStay(states: seq<Cluster>, rounds: seq<Round>, n: nat, a: Aim)
    requires IsRun(states, rounds, a) && n <= |rounds|
    requires !a.managed || states[0].Counts() == a.Desired()
    ensures states[n].Counts() == states[0].Counts()
  {
    if n > 0 {
      CountsStay(states, rounds, n - 1, a);
      StateIsSettled(states, rounds, n - 1, a);
    }
  }

  /** A workload on target is not evicted from, with or without an annotation. */
  lemma OnTargetIsLeftAlone(states: seq<Cluster>, rounds: seq<Round>, a: Aim)
    requires IsRun(states, rounds, a) && states[0].Counts() == a.Desired()
    ensures Evictions(rounds) == 0
  {
    forall i | 0 <= i < |rounds| ensures rounds[i].Skipped? {
      CountsStay(states, rounds, i, a);
      assert Step(states[i], rounds[i], states[i + 1], a);
    }
    NoEvictions(rounds);
  }

  lemma EvictionsAreBounded(states: seq<Cluster>, rounds: seq<Round>, a: Aim)
    requires a.Valid() && IsRun(states, rounds, a) && AllHealthy(rounds)
    requires !a.managed || a.annotated || states[0].Counts() == a.Desired()
    ensures Evictions(rounds) <= Gap(states[0], a.Desired())
  {
    if !a.managed {
      UnmanagedIsLeftAlone(states, rounds, a);
    } else if a.annotated {
      RunAccounting(states, rounds, a);
      NoWaste(states, rounds, a);
    } else {
      OnTargetIsLeftAlone(states, rounds, a);
    }
  }

  /** With healthy reads, evicting for ever is possible exactly for managed, unannotated workloads off target. */
  lemma MayEvictForEverIff(c: Cluster, a: Aim)
    requires a.Valid() && Settled(c, a.total)
    ensures MayEvictForEver(c, a) <==> a.managed && !a.annotated && c.Counts() != a.Desired()
  {
    if a.managed && !a.annotated && c.Counts() != a.Desired() {
      forall n: nat ensures MayEvict(c, a, n) {
        var states, rounds := UnannotatedMayEvictForEver(c, a, n);
      }
    } else if MayEvictForEver(c, a) {
      var n := Gap(c, a.Desired()) + 1;
      assert MayEvict(c, a, n);
      var states: seq<Cluster>, rounds: seq<Round> :|
        IsRun(states, rounds, a) && AllHealthy(rounds) && states[0] == c && Evictions(rounds) == n;
      EvictionsAreBounded(states, rounds, a);
    }
  }

  /** The same for a workload as it is written, whatever its label. */
  lemma WorkloadMayEvictForEverIff(
      labels: map<string, string>, annotations: map<string, string>, replicas: Int32, c: Cluster)
    requires replicas >= 0 && ParseWorkloadConfiguration(labels, annotations).Accepted? && Settled(c, replicas)
    ensures var a := AimOf(labels, annotations, replicas);
            MayEvictForEver(c, a) <==>
              IsSpotalisEnabled(labels) && !HasSpotalisAnnotations(annotations) && c.Counts() != a.Desired()
  {
    ParsedAimIsValid(labels, annotations, replicas);
    MayEvictForEverIff(c, AimOf(labels, annotations, replicas));
  }

  lemma LabelAlone()
    ensures var labels := map[ENABLED_LABEL := "true"];
            && ParseWorkloadConfiguration(labels, map[]).Accepted?
            && var a := AimOf(labels, map[], 3);
               a.Desired() == Split(3, 0) && a.managed && !a.annotated
  {
    assert ToLower("true") == "true";
    var a := AimOf(map[ENABLED_LABEL := "true"], map[], 3);
    Policy.AllocateIsLargestPermitted(3, a.config.AllocationPolicy());
  }

  /** The enabling label alone, and three pods on spot: however often one is evicted, three remain. */
  lemma LabelWithoutAnnotations(n: nat) returns (states: seq<Cluster>, rounds: seq<Round>)
    ensures var labels := map[ENABLED_LABEL := "true"];
            && ParseWorkloadConfiguration(labels, map[]).Accepted?
            && var a := AimOf(labels, map[], 3);
               && a.Desired() == Split(3, 0)
               && IsRun(states, rounds, a) && AllHealthy(rounds)
               && Evictions(rounds) == n && states[|rounds|].Counts() == Split(0, 3)
  {
    LabelAlone();
    ExampleCounts(Split(0, 3));
    states, rounds := UnannotatedMayEvictForEver(
      Example(Split(0, 3)), AimOf(map[ENABLED_LABEL := "true"], map[], 3), n);
  }
}
