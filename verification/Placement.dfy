/**
 * The placement loop: the Deployment controller evicts at most one misplaced pod per round and the
 * admission webhook places the replacement from a fresh snapshot (the wiring of
 * pkg/operator/operator.go, an Observer and no admission tracker).
 */
module Placement {
  import opened GoInt
  import opened Policy
  import opened Configuration
  import opened ReplicaStates
  import opened Observation
  import opened Selection

  /** The webhook's choice: on-demand up to its target, then spot up to its, then on-demand. */
  function FloorFirst(spot: int, onDemand: int, targetSpot: int, targetOnDemand: int): Capacity {
    if onDemand < targetOnDemand then OnDemand
    else if spot < targetSpot then Spot
    else OnDemand
  }

  /** What the webhook got when it asked for the workload and its snapshot. */
  datatype SnapshotRead =
    | Unavailable
    | Seen(isFresh: bool, classificationError: bool, snapshot: seq<Observed>)
  {
    predicate Healthy() {
      Seen? && isFresh && !classificationError
    }
  }

  /**
   * determineTargetCapacityType with an Observer and no tracker, and its caller's fallback: once a
   * pod is to be patched, every error, a stale snapshot and a failed classification mean on-demand.
   */
  function PlaceNextPod(read: SnapshotRead, desiredReplicas: Int32, policy: AllocationPolicy): Capacity {
    if !read.Healthy() then OnDemand
    else match Allocate(desiredReplicas, policy)
      case Rejected(_) => OnDemand
      case Ok(a) => FloorFirst(CountOf(read.snapshot, Spot), CountOf(read.snapshot, OnDemand),
                               a.targetSpot, a.targetOnDemand)
  }

  /**
   * What a workload asks for: its replicas and its configuration, whether its label passes the
   * reconcilers' gate, and whether it has an annotation.
   */
  datatype Aim = Aim(total: Int32, config: WorkloadConfiguration, managed: bool, annotated: bool)
  {
    function Desired(): Split {
      DesiredSplit(total, config)
    }

    /** As the parsers build them: a disabled configuration carries no policy. */
    ghost predicate Valid() {
      total >= 0 && (config.enabled || config.AllocationPolicy() == AllocationPolicy(0, 0))
    }
  }

  /** The aim of a workload with parsable annotations, whatever its label says. */
  function AimOf(labels: map<string, string>, annotations: map<string, string>, replicas: Int32): Aim
    requires ParseWorkloadConfiguration(labels, annotations).Accepted?
  {
    Aim(replicas, ParseWorkloadConfiguration(labels, annotations).config,
        IsSpotalisEnabled(labels), HasSpotalisAnnotations(annotations))
  }

  lemma ParsedAimIsValid(labels: map<string, string>, annotations: map<string, string>, replicas: Int32)
    requires replicas >= 0 && ParseWorkloadConfiguration(labels, annotations).Accepted?
    ensures AimOf(labels, annotations, replicas).Valid()
  {
  }

  /**
   * What the webhook got when a pod arrived: nothing of its owners, which it takes for an unmanaged
   * pod, or the owner's configuration and then an attempt at a snapshot.
   */
  datatype WebhookRead = OwnerUnreadable | OwnerRead(snapshot: SnapshotRead)
  {
    predicate Healthy() {
      OwnerRead? && snapshot.Healthy()
    }
  }

  datatype Admission = Unpatched | Patched(kind: Capacity)

  /** mutatePod: a pod is patched only if its workload was read and carries an annotation. */
  function Admit(a: Aim, read: WebhookRead): Admission {
    if read.OwnerUnreadable? || !a.annotated then Unpatched
    else Patched(PlaceNextPod(read.snapshot, a.total, a.config.AllocationPolicy()))
  }

  /** needsRebalancing */
  predicate NeedsRebalancing(current: Split, desired: Split) {
    current.spot + current.onDemand != 0 && current != desired
  }

  /** The workload's pods and the classes of the nodes they run on. */
  datatype Cluster = Cluster(pods: seq<Pod>, types: map<string, Capacity>)
  {
    ghost function View(): seq<Observed> {
      Snapshot(pods, types)
    }

    ghost function Counts(): Split {
      Split(CountOf(View(), OnDemand), CountOf(View(), Spot))
    }

    /** The eviction API accepted pod `i`: it starts terminating. */
    ghost function Evict(i: nat): Cluster
      requires i < |pods|
    {
      Cluster(pods[i := pods[i].(deleting := true)], types)
    }
  }

  /**
   * Between rounds: the workload has its `total` Ready pods on nodes of known class, beside any
   * number of pods that have finished or are going away.
   */
  ghost predicate Settled(c: Cluster, total: int) {
    && |c.pods| <= MAX_INT32
    && (forall p :: p in c.pods ==>
          IsTerminal(p) || p.deleting || Disruptible(p, Spot, c.types) || Disruptible(p, OnDemand, c.types))
    && c.Counts().spot + c.Counts().onDemand == total
  }

  /** The pod the controller would evict first. */
  ghost predicate IsFirstSelected(c: Cluster, i: nat, d: Split) {
    && |c.pods| <= MAX_INT32 && i < |c.pods|
    && IsInt32(d.spot) && IsInt32(d.onDemand)
    && Selected(c.View(), d.spot, d.onDemand) != []
    && c.pods[i] == Selected(c.View(), d.spot, d.onDemand)[0]
  }

  function Landed(counts: Split, kind: Capacity): Split {
    if kind == Spot then counts.(spot := counts.spot + 1) else counts.(onDemand := counts.onDemand + 1)
  }

  /**
   * One reconcile. `Skipped` is any that evicts nothing: cooldown, closed window, disruption
   * budget, API error, nothing to do, or a workload the reconciler does not manage. `Replaced`
   * evicts the first selected pod; the pod that replaces it lands on the class it was patched for,
   * or, unpatched, on either class.
   */
  datatype Round = Skipped | Replaced(victim: nat, read: WebhookRead, landed: Capacity)

  ghost predicate Step(c: Cluster, round: Round, c': Cluster, a: Aim) {
    && Settled(c, a.total) && Settled(c', a.total)
    && match round
       case Skipped => c'.Counts() == c.Counts()
       case Replaced(i, read, landed) =>
         && a.managed
         && NeedsRebalancing(c.Counts(), a.Desired())
         && IsFirstSelected(c, i, a.Desired())
         && (read.Healthy() ==> read.snapshot.snapshot == c.Evict(i).View())
         && landed != Unknown
         && (Admit(a, read).Patched? ==> landed == Admit(a, read).kind)
         && c'.Counts() == Landed(c.Evict(i).Counts(), landed)
  }

  /**
   * For a workload that the parser enables: once its owner was read, its pods are patched exactly if the
   * parser found a percentage or a floor; and never if the owner was not read.
   */
  lemma PatchedIffPolicyGiven(
      labels: map<string, string>, annotations: map<string, string>, replicas: Int32, read: SnapshotRead)
    requires LabelEnables(labels) && ParseWorkloadConfiguration(labels, annotations).Accepted?
    ensures var a := AimOf(labels, annotations, replicas);
            && (Admit(a, OwnerRead(read)).Patched? <==>
                  a.config.policy.spotPercentage.Explicit? || a.config.policy.minOnDemand.Explicit?)
            && Admit(a, OwnerUnreadable).Unpatched?
  {
  }

  /**
   * When a patched pod is placed on spot: only on a snapshot that was taken, is fresh and classified all
   * nodes, under a valid policy, with on-demand at its target and spot below; in all other cases on-demand.
   */
  lemma PlacedOnSpotIff(read: SnapshotRead, total: Int32, policy: AllocationPolicy)
    ensures PlaceNextPod(read, total, policy) == Spot <==>
              && read.Seen? && read.isFresh && !read.classificationError
              && Allocate(total, policy).Ok?
              && CountOf(read.snapshot, OnDemand) >= Allocate(total, policy).allocation.targetOnDemand
              && CountOf(read.snapshot, Spot) < Allocate(total, policy).allocation.targetSpot
    ensures PlaceNextPod(read, total, policy) != Spot ==> PlaceNextPod(read, total, policy) == OnDemand
  {
  }

  /** With a healthy read, controller and webhook aim at the same split. */
  lemma SameTargets(a: Aim, read: SnapshotRead)
    requires a.Valid() && read.Healthy()
    requires CountOf(read.snapshot, OnDemand) <= a.total
    ensures PlaceNextPod(read, a.total, a.config.AllocationPolicy())
         == FloorFirst(CountOf(read.snapshot, Spot), CountOf(read.snapshot, OnDemand),
                       a.Desired().spot, a.Desired().onDemand)
  {
    AllocateIsLargestPermitted(a.total, a.config.AllocationPolicy());
  }

  /** In a settled workload every counted pod is eligible. */
  lemma {:induction false} AllEligible(pods: seq<Pod>, types: map<string, Capacity>, kind: Capacity)
    requires kind != Unknown
    requires forall p :: p in pods ==>
               IsTerminal(p) || p.deleting || Disruptible(p, Spot, types) || Disruptible(p, OnDemand, types)
    ensures |EligibleOf(Snapshot(pods, types), kind)| == CountOf(Snapshot(pods, types), kind)
  {
    if pods != [] {
      AllEligible(pods[1..], types, kind);
      assert pods[0] in pods;
      assert Snapshot(pods, types)[1..] == Snapshot(pods[1..], types);
    }
  }

  lemma {:induction false} CountAfterUpdate(s: seq<Observed>, i: nat, o: Observed, kind: Capacity)
    requires i < |s|
    requires !Counted(o, kind)
    ensures CountOf(s[i := o], kind) == CountOf(s, kind) - (if Counted(s[i], kind) then 1 else 0)
  {
    if i == 0 {
      assert s[i := o][1..] == s[1..];
    } else {
      assert s[i := o][1..] == s[1..][i - 1 := o];
      CountAfterUpdate(s[1..], i - 1, o, kind);
    }
  }

  /** An evicted pod leaves the count of its class, and no other. */
  lemma EvictionUncounts(c: Cluster, i: nat, kind: Capacity)
    requires i < |c.pods| && kind != Unknown
    ensures CountOf(c.Evict(i).View(), kind)
         == CountOf(c.View(), kind) - (if Counted(c.View()[i], kind) then 1 else 0)
  {
    var gone := c.Evict(i).View()[i];
    assert c.Evict(i).View() == c.View()[i := gone];
    CountAfterUpdate(c.View(), i, gone, kind);
  }

  /** What evicting a disruptible pod of a class does to the counts. */
  lemma EvictedCounts(c: Cluster, i: nat, kind: Capacity)
    requires i < |c.pods| && kind != Unknown && Disruptible(c.pods[i], kind, c.types)
    ensures c.Evict(i).Counts() == if kind == Spot then c.Counts().(spot := c.Counts().spot - 1)
                                   else c.Counts().(onDemand := c.Counts().onDemand - 1)
  {
    EvictionUncounts(c, i, Spot);
    EvictionUncounts(c, i, OnDemand);
  }

  /** Away from the target exactly one class is in excess, and the pod evicted is of that class. */
  lemma VictimIsMisplaced(c: Cluster, i: nat, total: Int32, d: Split)
    requires Settled(c, total) && total >= 0 && i < |c.pods|
    requires IsInt32(d.spot) && IsInt32(d.onDemand) && d.spot >= 0 && d.onDemand >= 0 && d.spot + d.onDemand == total
    requires Selected(c.View(), d.spot, d.onDemand) != []
    requires c.pods[i] == Selected(c.View(), d.spot, d.onDemand)[0]
    ensures c.Counts().spot != d.spot
    ensures Disruptible(c.pods[i], if c.Counts().spot > d.spot then Spot else OnDemand, c.types)
  {
    var spots := EligibleOf(c.View(), Spot);
    var others := EligibleOf(c.View(), OnDemand);
    AllEligible(c.pods, c.types, Spot);
    AllEligible(c.pods, c.types, OnDemand);
    ExcessSize(spots, d.spot);
    ExcessSize(others, d.onDemand);
    if c.Counts().spot > d.spot {
      assert c.pods[i] == spots[0] && spots[0] in spots;
      EligibleAreDisruptible(c.pods, c.types, Spot);
    } else {
      assert c.pods[i] == others[0] && others[0] in others;
      EligibleAreDisruptible(c.pods, c.types, OnDemand);
    }
  }

  ghost function Gap(c: Cluster, d: Split): nat {
    Max(c.Counts().spot - d.spot, d.spot - c.Counts().spot)
  }

  /** The class in excess off target, from which the pod is evicted. */
  ghost function ExcessClass(c: Cluster, d: Split): Capacity {
    if c.Counts().spot > d.spot then Spot else OnDemand
  }

  /** A round spent in vain: the replacement lands on the class the evicted pod had. */
  ghost predicate Wasted(c: Cluster, round: Round, d: Split) {
    round.Replaced? && round.landed == ExcessClass(c, d)
  }

  /** The counts between an eviction and its replacement. */
  lemma MidRound(c: Cluster, i: nat, a: Aim)
    requires a.total >= 0 && Settled(c, a.total) && IsFirstSelected(c, i, a.Desired())
    ensures c.Counts().spot != a.Desired().spot
    ensures c.Counts() == Landed(c.Evict(i).Counts(), ExcessClass(c, a.Desired()))
  {
    DesiredSplitSums(a.total, a.config);
    VictimIsMisplaced(c, i, a.total, a.Desired());
    EvictedCounts(c, i, ExcessClass(c, a.Desired()));
  }

  /** A round that evicts closes the gap by one unless it is wasted. */
  lemma StepGap(c: Cluster, round: Round, c': Cluster, a: Aim)
    requires a.total >= 0 && Step(c, round, c', a)
    ensures Gap(c', a.Desired())
         == Gap(c, a.Desired()) - (if round.Replaced? && !Wasted(c, round, a.Desired()) then 1 else 0)
  {
    DesiredSplitSums(a.total, a.config);
    if round.Replaced? {
      MidRound(c, round.victim, a);
    }
  }

  /**
   * On-demand never falls below the lesser of its count and its target, not even between the
   * eviction and the replacement, and wherever that lands.
   */
  lemma StepFloor(c: Cluster, round: Round, c': Cluster, a: Aim)
    requires a.total >= 0 && Step(c, round, c', a)
    ensures var floor := Min(c.Counts().onDemand, a.Desired().onDemand);
            && c'.Counts().onDemand >= floor
            && (round.Replaced? ==> c.Evict(round.victim).Counts().onDemand >= floor)
  {
    DesiredSplitSums(a.total, a.config);
    if round.Replaced? {
      MidRound(c, round.victim, a);
    }
  }

  /**
   * How a round comes to be wasted. After evicting a spot pod: only if the replacement went
   * unpatched. After evicting an on-demand pod: only if it went unpatched or was placed blindly.
   */
  lemma WasteHasACause(c: Cluster, round: Round, c': Cluster, a: Aim)
    requires a.Valid() && Step(c, round, c', a) && Wasted(c, round, a.Desired())
    ensures ExcessClass(c, a.Desired()) == Spot ==> Admit(a, round.read).Unpatched?
    ensures ExcessClass(c, a.Desired()) == OnDemand ==> Admit(a, round.read).Unpatched? || !round.read.Healthy()
  {
    var d := a.Desired();
    DesiredSplitSums(a.total, a.config);
    MidRound(c, round.victim, a);
    if Admit(a, round.read).Patched? && round.read.Healthy() {
      SameTargets(a, round.read.snapshot);
    }
  }

  /** Short of the target there is always a pod to evict; at the target there is never one. */
  lemma EvictsExactlyOffTarget(c: Cluster, a: Aim)
    requires a.total >= 0 && Settled(c, a.total)
    ensures var d := a.Desired();
            && IsInt32(d.spot) && IsInt32(d.onDemand)
            && (c.Counts() == d <==> Gap(c, d) == 0)
            && (NeedsRebalancing(c.Counts(), d) <==> c.Counts() != d)
            && (Selected(c.View(), d.spot, d.onDemand) == [] <==> c.Counts() == d)
  {
    var d := a.Desired();
    DesiredSplitSums(a.total, a.config);
    AllEligible(c.pods, c.types, Spot);
    AllEligible(c.pods, c.types, OnDemand);
    ExcessSize(EligibleOf(c.View(), Spot), d.spot);
    ExcessSize(EligibleOf(c.View(), OnDemand), d.onDemand);
  }

  const ON_DEMAND_NODE := "on-demand-node"
  const SPOT_NODE := "spot-node"

  ghost function ReadyPods(n: nat, node: string): seq<Pod> {
    seq(n, i requires 0 <= i < n => Pod("", node, PhaseRunning, false, [Condition("Ready", "True")]))
  }

  /** A settled workload with the given counts. */
  ghost function Example(counts: Split): Cluster
    requires counts.onDemand >= 0 && counts.spot >= 0
  {
    Cluster(ReadyPods(counts.onDemand, ON_DEMAND_NODE) + ReadyPods(counts.spot, SPOT_NODE),
            map[ON_DEMAND_NODE := OnDemand, SPOT_NODE := Spot])
  }

  lemma {:induction false} ReadyPodsCount(n: nat, node: string, types: map<string, Capacity>, kind: Capacity)
    requires node != "" && node in types && kind != Unknown
    ensures CountOf(Snapshot(ReadyPods(n, node), types), kind) == if types[node] == kind then n else 0
  {
    if n > 0 {
      ReadyPodsCount(n - 1, node, types, kind);
      var pods := ReadyPods(n, node);
      assert pods[1..] == ReadyPods(n - 1, node);
      assert Snapshot(pods, types)[1..] == Snapshot(pods[1..], types);
    }
  }

  lemma ExampleView(counts: Split)
    requires counts.onDemand >= 0 && counts.spot >= 0
    ensures var c := Example(counts);
            c.View() == Snapshot(ReadyPods(counts.onDemand, ON_DEMAND_NODE), c.types)
                      + Snapshot(ReadyPods(counts.spot, SPOT_NODE), c.types)
  {
  }

  lemma ExampleCount(counts: Split, kind: Capacity)
    requires counts.onDemand >= 0 && counts.spot >= 0 && (kind == Spot || kind == OnDemand)
    ensures CountOf(Example(counts).View(), kind) == if kind == Spot then counts.spot else counts.onDemand
  {
    var types := Example(counts).types;
    ExampleView(counts);
    CountSplits(Snapshot(ReadyPods(counts.onDemand, ON_DEMAND_NODE), types),
                Snapshot(ReadyPods(counts.spot, SPOT_NODE), types), kind);
    ReadyPodsCount(counts.onDemand, ON_DEMAND_NODE, types, kind);
    ReadyPodsCount(counts.spot, SPOT_NODE, types, kind);
  }

  lemma ExampleCounts(counts: Split)
    requires counts.onDemand >= 0 && counts.spot >= 0 && counts.onDemand + counts.spot <= MAX_INT32
    ensures Example(counts).Counts() == counts
    ensures Settled(Example(counts), counts.onDemand + counts.spot)
  {
    ExampleCount(counts, Spot);
    ExampleCount(counts, OnDemand);
  }

  /** Where the selected pod stands among the workload's pods. */
  lemma VictimIndex(c: Cluster, desiredSpot: Int32, desiredOnDemand: Int32) returns (i: nat)
    requires |c.pods| <= MAX_INT32
    requires Selected(c.View(), desiredSpot, desiredOnDemand) != []
    ensures i < |c.pods| && c.pods[i] == Selected(c.View(), desiredSpot, desiredOnDemand)[0]
  {
    var victim := Selected(c.View(), desiredSpot, desiredOnDemand)[0];
    var spots := ExcessPods(EligibleOf(c.View(), Spot), desiredSpot);
    assert victim in spots || victim in ExcessPods(EligibleOf(c.View(), OnDemand), desiredOnDemand);
    SelectionIsSafe(c.pods, c.types, if victim in spots then Spot else OnDemand, desiredSpot, desiredOnDemand);
    i :| 0 <= i < |c.pods| && c.pods[i] == victim;
  }

  /** A round can end with the replacement on any class that its admission leaves open. */
  lemma RoundCanEnd(c: Cluster, i: nat, read: WebhookRead, landed: Capacity, a: Aim) returns (c': Cluster)
    requires a.total >= 0 && a.managed && Settled(c, a.total)
    requires NeedsRebalancing(c.Counts(), a.Desired()) && IsFirstSelected(c, i, a.Desired())
    requires read.Healthy() ==> read.snapshot.snapshot == c.Evict(i).View()
    requires landed != Unknown && (Admit(a, read).Patched? ==> landed == Admit(a, read).kind)
    ensures Step(c, Replaced(i, read, landed), c', a)
  {
    MidRound(c, i, a);
    var after := Landed(c.Evict(i).Counts(), landed);
    ExampleCounts(after);
    c' := Example(after);
  }

  /** Off target a reconcile that evicts, with a healthy read, is always possible. */
  lemma HealthyRound(c: Cluster, a: Aim) returns (i: nat, read: WebhookRead)
    requires a.total >= 0 && Settled(c, a.total) && c.Counts() != a.Desired()
    ensures NeedsRebalancing(c.Counts(), a.Desired()) && IsFirstSelected(c, i, a.Desired())
    ensures read.Healthy() && read.snapshot.snapshot == c.Evict(i).View()
  {
    EvictsExactlyOffTarget(c, a);
    i := VictimIndex(c, a.Desired().spot, a.Desired().onDemand);
    read := OwnerRead(Seen(true, false, c.Evict(i).View()));
  }
}
