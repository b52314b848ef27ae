/**
 * One reconcile of a Deployment (pkg/controllers/deployment_controller.go) or a StatefulSet
 * (pkg/controllers/statefulset_controller.go): the gates it passes in order, the eviction it may
 * attempt, and the time it remembers.
 */
module Reconciler {
  import opened GoInt
  import opened GoTime
  import opened Configuration
  import opened ReplicaStates
  import opened Observation
  import opened Selection
  import opened Placement
  import opened DisruptionWindow

  const DEFAULT_COOLDOWN := 10_000_000_000

  /** The replica counts of a workload's status; `specified` says whether its replicas are set. */
  datatype Status =
    | DeploymentStatus(replicas: int, specified: bool, ready: int, updated: int, available: int, unavailable: int)
    | StatefulSetStatus(replicas: int, specified: bool, ready: int, updated: int, current: int)

  /** isDeploymentStableAndReady and isStatefulSetStableAndReady */
  predicate IsStableAndReady(s: Status) {
    && s.specified && s.replicas != 0
    && s.ready == s.replicas && s.updated == s.replicas
    && match s
       case DeploymentStatus(replicas, _, _, _, available, unavailable) => available == replicas && unavailable == 0
       case StatefulSetStatus(replicas, _, _, _, current) => current == replicas
  }

  /** What the eviction API answered, or the disruption budget check before it. */
  datatype EvictionOutcome = BlockedByBudget | Evicted | AlreadyGone | PDBBlocked | EvictionError

  datatype NamespaceVerdict = FilterError | Refused | Permitted

  datatype WorkloadRead = Missing | ReadError | Got(workload: Workload)

  /** What the Observer answered. */
  datatype PodsRead = NotObserved | ObservedPods(pods: seq<Observed>)
  {
    ghost predicate Fits() {
      ObservedPods? ==> |pods| <= MAX_INT32
    }
  }

  datatype WindowRead = Unresolved | Resolved(window: Window)

  /**
   * Everything a reconcile reads about its workload. It observes the pods twice: once for the counts,
   * and once more for the pods to choose from.
   */
  datatype Workload = Workload(
    labels: map<string, string>,
    annotations: map<string, string>,
    namespaceVerdict: NamespaceVerdict,
    status: Status,
    counted: PodsRead,
    window: WindowRead,
    categorized: PodsRead)
  {
    /** Counts that Kubernetes can hold in 32 bits. */
    ghost predicate Fits() {
      counted.Fits() && categorized.Fits() && (status.specified ==> IsInt32(status.replicas))
    }
  }

  /** The clock where the cooldown is checked, where the window is, and after the eviction call. */
  datatype Clock = Clock(gate: int, window: int, evicted: int, stored: int)
  {
    ghost predicate Ordered() {
      gate <= window <= evicted <= stored
    }
  }

  /** How a reconcile ends; an attempt may have failed, the eviction itself or what follows it. */
  datatype Result =
    | Forgotten | Errored | NotManaged | CoolingDown | Unstable | Balanced | OutsideWindow | NothingSelected
    | Attempted(victim: Pod, outcome: EvictionOutcome, failed: bool)

  function Cooldown(configured: int): int {
    if configured > 0 then configured else DEFAULT_COOLDOWN
  }

  predicate Cooling(last: Stamp, cooldown: int, now: int) {
    last.At? && now - last.time < cooldown
  }

  predicate Gone(outcome: EvictionOutcome) {
    outcome == Evicted || outcome == AlreadyGone
  }

  predicate Removed(r: Result) {
    r.Attempted? && Gone(r.outcome)
  }

  function LastIn(times: map<string, int>, key: string): Stamp {
    if key in times then Stamp.At(times[key]) else Never
  }

  /** What remembering the time of a removal makes of the times. */
  function Remembered(times: map<string, int>, key: string, r: Result, now: int): map<string, int> {
    if Removed(r) then times[key := now] else times
  }

  // What the gates let through, stated over everything that was read.

  ghost predicate Managed(w: Workload) {
    IsSpotalisEnabled(w.labels) && w.namespaceVerdict == Permitted
  }

  /** A managed workload with a stable status, a parsable configuration and counted pods. */
  ghost predicate Comparable(w: Workload) {
    && Managed(w)
    && IsStableAndReady(w.status)
    && ParseWorkloadConfiguration(w.labels, w.annotations).Accepted?
    && w.counted.ObservedPods?
  }

  ghost function DesiredFor(w: Workload): Split
    requires Comparable(w) && w.Fits()
  {
    DesiredSplit(w.status.replicas, ParseWorkloadConfiguration(w.labels, w.annotations).config)
  }

  /** The first observation is off the desired split. */
  ghost predicate OffTarget(w: Workload)
    requires Comparable(w) && w.Fits()
  {
    NeedsRebalancing(Split(CountOf(w.counted.pods, OnDemand), CountOf(w.counted.pods, Spot)), DesiredFor(w))
  }

  ghost predicate WindowOpen(w: WindowRead, now: int) {
    w.Resolved? && IsWithinWindow(w.window, now)
  }

  /** When a reconcile that is not cooling down gets to choose pods. */
  ghost predicate Passes(w: Workload, now: int)
    requires w.Fits()
  {
    Comparable(w) && OffTarget(w) && WindowOpen(w.window, now) && w.categorized.ObservedPods?
  }

  lemma DesiredFits(total: Int32, config: WorkloadConfiguration)
    ensures IsInt32(DesiredSplit(total, config).spot) && IsInt32(DesiredSplit(total, config).onDemand)
  {
    Policy.AllocateIsLargestPermitted(total, config.AllocationPolicy());
  }

  /** The pods it then chooses, from the second observation. */
  ghost function Picked(w: Workload): seq<Pod>
    requires Comparable(w) && w.Fits() && w.categorized.ObservedPods?
  {
    DesiredFits(w.status.replicas, ParseWorkloadConfiguration(w.labels, w.annotations).config);
    Selected(w.categorized.pods, DesiredFor(w).spot, DesiredFor(w).onDemand)
  }

  /** Every pod chosen is Ready, staying, and of a class that has more actual pods than are desired. */
  lemma EvictionIsJustified(w: Workload, victim: Pod, now: int, pods: seq<Pod>, types: map<string, Capacity>)
    requires w.Fits() && Passes(w, now) && victim in Picked(w)
    requires w.categorized.pods == Observation.Snapshot(pods, types)
    ensures victim in pods
    ensures || (Disruptible(victim, Spot, types) && CountOf(w.categorized.pods, Spot) > DesiredFor(w).spot)
            || (Disruptible(victim, OnDemand, types) && CountOf(w.categorized.pods, OnDemand) > DesiredFor(w).onDemand)
  {
    var d := DesiredFor(w);
    DesiredFits(w.status.replicas, ParseWorkloadConfiguration(w.labels, w.annotations).config);
    SelectionIsSafe(pods, types, Spot, d.spot, d.onDemand);
    SelectionIsSafe(pods, types, OnDemand, d.spot, d.onDemand);
    var spots := ExcessPods(EligibleOf(w.categorized.pods, Spot), d.spot);
    if victim in spots {
      assert spots != [];
    } else {
      assert victim in ExcessPods(EligibleOf(w.categorized.pods, OnDemand), d.onDemand);
    }
  }

  /**
   * What a workload must be to be evicted from, in its own terms: a label that spells "true", a permitted
   * namespace, and a status whose counts all equal the replicas asked for, with none unavailable.
   */
  ghost predicate IsReconcilable(w: Workload) {
    && "spotalis.io/enabled" in w.labels && SpellsTrue(w.labels["spotalis.io/enabled"])
    && w.namespaceVerdict == Permitted
    && w.status.specified && w.status.replicas != 0
    && w.status.ready == w.status.updated == w.status.replicas
    && match w.status
       case DeploymentStatus(replicas, _, _, _, available, unavailable) => available == replicas && unavailable == 0
       case StatefulSetStatus(replicas, _, _, _, current) => current == replicas
  }

  lemma OnlyStableManagedWorkloads(w: Workload, now: int)
    requires w.Fits() && Passes(w, now)
    ensures IsReconcilable(w)
  {
    GateIff(w.labels);
  }

  /** Off target means a count of either class, in the first observation, that is not the desired one. */
  lemma OffTargetIff(w: Workload)
    requires w.Fits() && Comparable(w)
    ensures var spot, onDemand := CountOf(w.counted.pods, Spot), CountOf(w.counted.pods, OnDemand);
            var d := DesiredSplit(w.status.replicas, ParseWorkloadConfiguration(w.labels, w.annotations).config);
            OffTarget(w) <==> spot + onDemand > 0 && (spot != d.spot || onDemand != d.onDemand)
  {
  }

  /** The cooldown is ten seconds unless another is configured, and over exactly when it has passed. */
  lemma CooldownEnds(configured: int, deleted: int, now: int)
    ensures Cooldown(configured) == if configured <= 0 then 10_000_000_000 else configured
    ensures Cooling(Stamp.At(deleted), Cooldown(configured), now) <==> now < deleted + Cooldown(configured)
    ensures !Cooling(Never, Cooldown(configured), now)
  {
  }

  /** Of the five outcomes two start the cooldown anew. */
  lemma OutcomesThatRemove(last: Stamp, victim: Pod, failed: bool, clock: Clock)
    ensures forall o: EvictionOutcome :: After(last, RoundOf(Attempted(victim, o, failed), clock)) ==
              match o
              case Evicted => Stamp.At(clock.stored)
              case AlreadyGone => Stamp.At(clock.stored)
              case BlockedByBudget => last
              case PDBBlocked => last
              case EvictionError => last
  {
  }

  /** Without a disruption window the window is always open. */
  lemma NoWindowIsOpen(now: int)
    ensures WindowOpen(Resolved(NoWindow), now)
  {
  }

  /** Where the gates leave a reconcile: at an end, or with the pods it selected. */
  datatype Gated = Stopped(result: Result) | Chosen(podsToDelete: seq<Pod>)

  /** The comparison with the desired split, and the choice of pods, which both controllers write alike. */
  method Compare(workload: Workload, config: WorkloadConfiguration, now: int) returns (g: Gated)
    requires workload.Fits() && Comparable(workload)
    requires config == ParseWorkloadConfiguration(workload.labels, workload.annotations).config
    ensures g.Chosen? <==> Passes(workload, now)
    ensures g.Chosen? ==> g.podsToDelete == Picked(workload)
    ensures g.Stopped? ==> g.result in {Balanced, OutsideWindow, Errored}
    ensures g == Stopped(Balanced) <==> !OffTarget(workload)
    ensures g == Stopped(OutsideWindow) <==>
              OffTarget(workload) && workload.window.Resolved? && !IsWithinWindow(workload.window.window, now)
  {
    var total, pods := workload.status.replicas, workload.counted.pods;
    var spot, onDemand := ActualCounts(pods);
    var state := new ReplicaState(total, onDemand, spot);
    state.CalculateDesiredDistribution(config);
    DesiredFits(total, config);
    if !NeedsRebalancing(state.Current(), state.Desired()) {
      return Stopped(Balanced);
    }
    if workload.window.Unresolved? {
      return Stopped(Errored);
    }
    if !IsWithinWindow(workload.window.window, now) {
      return Stopped(OutsideWindow);
    }
    if workload.categorized.NotObserved? {
      return Stopped(Errored);
    }
    var spotPods, onDemandPods := EligiblePods(workload.categorized.pods);
    var podsToDelete := SelectPodsForDeletion(spotPods, onDemandPods, state.desiredSpot, state.desiredOnDemand);
    g := Chosen(podsToDelete);
  }

  /** The gates of Reconcile, which both controllers write alike. */
  method PassGates(workload: Workload, last: Stamp, cooldown: int, clock: Clock) returns (g: Gated)
    requires workload.Fits()
    ensures g.Chosen? <==> !Cooling(last, cooldown, clock.gate) && Passes(workload, clock.window)
    ensures g.Chosen? ==> g.podsToDelete == Picked(workload)
    ensures g.Stopped? ==> g.result in {Errored, NotManaged, CoolingDown, Unstable, Balanced, OutsideWindow}
    ensures g == Stopped(CoolingDown) <==> Managed(workload) && Cooling(last, cooldown, clock.gate)
    ensures g == Stopped(Unstable) <==>
              Managed(workload) && !Cooling(last, cooldown, clock.gate) && !IsStableAndReady(workload.status)
    ensures g == Stopped(Balanced) <==>
              !Cooling(last, cooldown, clock.gate) && Comparable(workload) && !OffTarget(workload)
    ensures g == Stopped(OutsideWindow) <==>
              && !Cooling(last, cooldown, clock.gate) && Comparable(workload) && OffTarget(workload)
              && workload.window.Resolved? && !IsWithinWindow(workload.window.window, clock.window)
  {
    if !IsSpotalisEnabled(workload.labels) {
      return Stopped(NotManaged);
    }
    match workload.namespaceVerdict {
      case FilterError => return Stopped(Errored);
      case Refused => return Stopped(NotManaged);
      case Permitted =>
    }
    if last.At? && clock.gate - last.time < cooldown {
      return Stopped(CoolingDown);
    }
    if !IsStableAndReady(workload.status) {
      return Stopped(Unstable);
    }
    var parsed := ParseWorkloadConfiguration(workload.labels, workload.annotations);
    if parsed.Failed? || workload.counted.NotObserved? {
      return Stopped(Errored);
    }
    g := Compare(workload, parsed.config, clock.window);
  }

  class DeploymentReconciler {
    var lastDeletionTimes: map<string, int>
    const cooldownPeriod: int

    constructor (cooldownPeriod: int)
      ensures lastDeletionTimes == map[] && this.cooldownPeriod == cooldownPeriod
    {
      lastDeletionTimes := map[];
      this.cooldownPeriod := cooldownPeriod;
    }

    function Last(key: string): Stamp
      reads this
    {
      LastIn(lastDeletionTimes, key)
    }

    /** executeDeploymentRebalancing: the first selected pod, and the time if it is gone. */
    method Execute(key: string, podsToDelete: seq<Pod>, outcome: EvictionOutcome, now: int) returns (r: Result)
      modifies this`lastDeletionTimes
      ensures r == if podsToDelete == [] then NothingSelected
                   else Attempted(podsToDelete[0], outcome, outcome == EvictionError)
      ensures lastDeletionTimes == Remembered(old(lastDeletionTimes), key, r, now)
    {
      if |podsToDelete| == 0 {
        return NothingSelected;
      }
      var pod := podsToDelete[0];
      match outcome {
        case BlockedByBudget | PDBBlocked =>
          return Attempted(pod, outcome, false);
        case EvictionError =>
          return Attempted(pod, outcome, true);
        case Evicted | AlreadyGone =>
          lastDeletionTimes := lastDeletionTimes[key := now];
          return Attempted(pod, outcome, false);
      }
    }

    /**
     * Reconcile. It attempts an eviction exactly when the gates let it through outside the cooldown
     * and a pod is picked, of the first one picked; it remembers the time exactly when the pod is gone
     * afterwards, and forgets it exactly when the workload is missing.
     */
    method Reconcile(key: string, read: WorkloadRead, outcome: EvictionOutcome, clock: Clock) returns (r: Result)
      requires read.Got? ==> read.workload.Fits()
      modifies this`lastDeletionTimes
      ensures r == Forgotten <==> read.Missing?
      ensures lastDeletionTimes == if r == Forgotten then old(lastDeletionTimes) - {key}
                                   else Remembered(old(lastDeletionTimes), key, r, clock.stored)
      ensures clock.Ordered() && r != Forgotten ==>
                && Allowed(old(Last(key)), RoundOf(r, clock), Cooldown(cooldownPeriod))
                && Last(key) == After(old(Last(key)), RoundOf(r, clock))
      ensures r.Attempted? ==> read.Got? && IsReconcilable(read.workload)
      ensures r == CoolingDown <==>
                read.Got? && Managed(read.workload) && Cooling(old(Last(key)), Cooldown(cooldownPeriod), clock.gate)
      ensures r.Attempted? <==>
                && read.Got? && !Cooling(old(Last(key)), Cooldown(cooldownPeriod), clock.gate)
                && Passes(read.workload, clock.window) && Picked(read.workload) != []
      ensures r.Attempted? ==> r == Attempted(Picked(read.workload)[0], outcome, outcome == EvictionError)
    {
      match read {
        case Missing =>
          lastDeletionTimes := lastDeletionTimes - {key};
          return Forgotten;
        case ReadError =>
          return Errored;
        case Got(workload) =>
          var g := PassGates(workload, Last(key), Cooldown(cooldownPeriod), clock);
          match g {
            case Stopped(result) => return result;
            case Chosen(podsToDelete) =>
              OnlyStableManagedWorkloads(workload, clock.window);
              r := Execute(key, podsToDelete, outcome, clock.stored);
          }
      }
    }
  }

  class StatefulSetReconciler {
    var lastDeletionTimes: map<string, int>
    const cooldownPeriod: int

    constructor (cooldownPeriod: int)
      ensures lastDeletionTimes == map[] && this.cooldownPeriod == cooldownPeriod
    {
      lastDeletionTimes := map[];
      this.cooldownPeriod := cooldownPeriod;
    }

    function Last(key: string): Stamp
      reads this
    {
      LastIn(lastDeletionTimes, key)
    }

    /**
     * executeGradualRebalancing: a selected pod of the highest ordinal, and the time if it is gone,
     * which is remembered also when the update of the pod template then fails.
     */
    method Execute(
        key: string, name: string, podsToDelete: seq<Pod>, outcome: EvictionOutcome, templateUpdated: bool, now: int)
      returns (r: Result)
      modifies this`lastDeletionTimes
      ensures r == NothingSelected <==> podsToDelete == []
      ensures podsToDelete != [] ==>
                r.Attempted? && r.outcome == outcome && IsHighestOrdinal(r.victim, podsToDelete, name)
      ensures r.Attempted? ==> (r.failed <==> outcome == EvictionError || (Gone(outcome) && !templateUpdated))
      ensures lastDeletionTimes == Remembered(old(lastDeletionTimes), key, r, now)
    {
      if |podsToDelete| == 0 {
        return NothingSelected;
      }
      var pod := StatefulSetVictim(podsToDelete, name);
      match outcome {
        case BlockedByBudget | PDBBlocked =>
          return Attempted(pod, outcome, false);
        case EvictionError =>
          return Attempted(pod, outcome, true);
        case Evicted | AlreadyGone =>
          lastDeletionTimes := lastDeletionTimes[key := now];
          return Attempted(pod, outcome, !templateUpdated);
      }
    }

    /** Reconcile: as for a Deployment, but of a picked pod of the highest ordinal. */
    method Reconcile(
        key: string, name: string, read: WorkloadRead, outcome: EvictionOutcome, templateUpdated: bool, clock: Clock)
      returns (r: Result)
      requires read.Got? ==> read.workload.Fits()
      modifies this`lastDeletionTimes
      ensures r == Forgotten <==> read.Missing?
      ensures lastDeletionTimes == if r == Forgotten then old(lastDeletionTimes) - {key}
                                   else Remembered(old(lastDeletionTimes), key, r, clock.stored)
      ensures clock.Ordered() && r != Forgotten ==>
                && Allowed(old(Last(key)), RoundOf(r, clock), Cooldown(cooldownPeriod))
                && Last(key) == After(old(Last(key)), RoundOf(r, clock))
      ensures r.Attempted? ==> read.Got? && IsReconcilable(read.workload)
      ensures r == CoolingDown <==>
                read.Got? && Managed(read.workload) && Cooling(old(Last(key)), Cooldown(cooldownPeriod), clock.gate)
      ensures r.Attempted? <==>
                && read.Got? && !Cooling(old(Last(key)), Cooldown(cooldownPeriod), clock.gate)
                && Passes(read.workload, clock.window) && Picked(read.workload) != []
      ensures r.Attempted? ==> r.outcome == outcome && IsHighestOrdinal(r.victim, Picked(read.workload), name)
    {
      match read {
        case Missing =>
          lastDeletionTimes := lastDeletionTimes - {key};
          return Forgotten;
        case ReadError =>
          return Errored;
        case Got(workload) =>
          var g := PassGates(workload, Last(key), Cooldown(cooldownPeriod), clock);
          match g {
            case Stopped(result) => return result;
            case Chosen(podsToDelete) =>
              OnlyStableManagedWorkloads(workload, clock.window);
              r := Execute(key, name, podsToDelete, outcome, templateUpdated, clock.stored);
          }
      }
    }
  }

  // The eviction rate over runs of one workload's reconciles.

  /** One reconcile, as far as the cooldown sees it: its clock, and whether it removed the pod. */
  datatype Round = Round(clock: Clock, attempted: bool, removed: bool)

  function RoundOf(r: Result, clock: Clock): Round {
    Round(clock, r.Attempted?, Removed(r))
  }

  /** A round under the cooldown: an attempt passes the gate, and only an attempt removes. */
  ghost predicate Allowed(last: Stamp, round: Round, cooldown: int) {
    && round.clock.Ordered()
    && (round.attempted ==> !Cooling(last, cooldown, round.clock.gate))
    && (round.removed ==> round.attempted)
  }

  ghost function After(last: Stamp, round: Round): Stamp {
    if round.removed then Stamp.At(round.clock.stored) else last
  }

  /** Rounds one after the other; from one to the next the clock may even go back. */
  ghost predicate IsRun(last: Stamp, rounds: seq<Round>, cooldown: int)
    decreases |rounds|
  {
    rounds == [] || (
      && Allowed(last, rounds[0], cooldown)
      && IsRun(After(last, rounds[0]), rounds[1..], cooldown))
  }

  /** When the pods were removed, in order. */
  ghost function Evictions(rounds: seq<Round>): seq<int> {
    if rounds == [] then []
    else (if rounds[0].removed then [rounds[0].clock.evicted] else []) + Evictions(rounds[1..])
  }

  ghost predicate Spaced(times: seq<int>, gap: int) {
    forall i :: 0 <= i < |times| - 1 ==> times[i] + gap <= times[i + 1]
  }

  /** Successive evictions of one workload are at least the cooldown apart. */
  lemma {:induction false} EvictionsAreSpaced(last: Stamp, rounds: seq<Round>, cooldown: int)
    requires cooldown > 0 && IsRun(last, rounds, cooldown)
    ensures Spaced(Evictions(rounds), cooldown)
    ensures last.At? && Evictions(rounds) != [] ==> last.time + cooldown <= Evictions(rounds)[0]
    decreases |rounds|
  {
    if rounds != [] {
      EvictionsAreSpaced(After(last, rounds[0]), rounds[1..], cooldown);
      var rest := Evictions(rounds[1..]);
      if rounds[0].removed {
        assert Evictions(rounds) == [rounds[0].clock.evicted] + rest;
      } else {
        assert Evictions(rounds) == rest;
      }
    }
  }

  lemma {:induction false} SpacedSpan(times: seq<int>, gap: int)
    requires gap > 0 && Spaced(times, gap) && times != []
    ensures times[0] + gap * (|times| - 1) <= times[|times| - 1]
  {
    if |times| > 1 {
      var rest := times[1..];
      assert Spaced(rest, gap) by {
        forall i | 0 <= i < |rest| - 1 ensures rest[i] + gap <= rest[i + 1] {
          assert times[i + 1] + gap <= times[i + 1 + 1];
        }
      }
      SpacedSpan(rest, gap);
      assert times[0] + gap <= times[0 + 1];
      assert gap * (|times| - 1) == gap * (|rest| - 1) + gap;
    }
  }

  lemma DivideBound(c: int, n: nat, length: nat)
    requires c > 0 && c * n <= length
    ensures n <= length / c
  {
    var q := length / c;
    assert length < c * q + c;
    if n > q {
      ProductOrder(c, q + 1, c, n);
    }
  }

  lemma SpacedInInterval(times: seq<int>, gap: int, start: int, length: nat)
    requires gap > 0 && Spaced(times, gap)
    requires forall k :: 0 <= k < |times| ==> start <= times[k] <= start + length
    ensures |times| <= length / gap + 1
  {
    if times != [] {
      SpacedSpan(times, gap);
      assert start <= times[0] && times[|times| - 1] <= start + length;
      DivideBound(gap, |times| - 1, length);
    }
  }

  lemma SpacedSlice(times: seq<int>, gap: int, i: nat, j: nat)
    requires Spaced(times, gap) && i <= j <= |times|
    ensures Spaced(times[i..j], gap)
  {
    forall k | 0 <= k < j - i - 1 ensures times[i..j][k] + gap <= times[i..j][k + 1] {
      assert times[i + k] + gap <= times[i + k + 1];
    }
  }

  /**
   * The eviction rate: of the evictions of a run, at most floor(L / cooldown) + 1 fall into any
   * closed interval of length L.
   */
  lemma EvictionRate(last: Stamp, rounds: seq<Round>, configured: int, i: nat, j: nat, start: int, length: nat)
    requires IsRun(last, rounds, Cooldown(configured))
    requires i <= j <= |Evictions(rounds)|
    requires forall k :: i <= k < j ==> start <= Evictions(rounds)[k] <= start + length
    ensures j - i <= length / Cooldown(configured) + 1
  {
    var cooldown := Cooldown(configured);
    EvictionsAreSpaced(last, rounds, cooldown);
    SpacedSlice(Evictions(rounds), cooldown, i, j);
    SpacedInInterval(Evictions(rounds)[i..j], cooldown, start, length);
  }
}
