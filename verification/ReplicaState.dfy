/** pkg/apis/replica_state.go: the desired split of a workload and the one-replica steps toward it. */
module ReplicaStates {
  import opened GoInt
  import opened Policy
  import opened Configuration

  datatype Action =
    | NoAction
    | ScaleUpOnDemand
    | ScaleUpSpot
    | ScaleDownOnDemand
    | ScaleDownSpot
    | MigrateToSpot
    | MigrateToOnDemand

  datatype Split = Split(onDemand: int, spot: int)

  /** The desired split: everything on-demand when disabled or when the policy is rejected. */
  function DesiredSplit(total: Int32, config: WorkloadConfiguration): Split {
    if !config.enabled then Split(total, 0)
    else match Allocate(total, config.AllocationPolicy())
      case Rejected(_) => Split(total, 0)
      case Ok(a) => Split(a.targetOnDemand, a.targetSpot)
  }

  /** Whatever the configuration, the desired split is a split of the workload's replicas. */
  lemma DesiredSplitSums(total: Int32, config: WorkloadConfiguration)
    ensures DesiredSplit(total, config).onDemand + DesiredSplit(total, config).spot == total
    ensures total >= 0 ==> DesiredSplit(total, config).onDemand >= 0 && DesiredSplit(total, config).spot >= 0
  {
    AllocateIsLargestPermitted(total, config.AllocationPolicy());
  }

  /** A workload whose label spells "true" otherwise is reconciled toward no spot at all. */
  lemma MisspelledLabelMeansAllOnDemand(
      labels: map<string, string>, annotations: map<string, string>, total: Int32)
    requires IsSpotalisEnabled(labels) && !LabelEnables(labels)
    ensures ParseWorkloadConfiguration(labels, annotations).Accepted?
    ensures DesiredSplit(total, ParseWorkloadConfiguration(labels, annotations).config) == Split(total, 0)
  {
  }

  /** GetNextAction, from the current and desired counts and the workload's total. */
  function NextAction(total: Int32, current: Split, desired: Split): Action {
    if current == desired then NoAction
    else
      var currentTotal := Wrap32(current.onDemand + current.spot);
      if currentTotal < total && current.onDemand < desired.onDemand then ScaleUpOnDemand
      else if currentTotal < total && current.spot < desired.spot then ScaleUpSpot
      else if currentTotal > total && current.spot > desired.spot then ScaleDownSpot
      else if currentTotal > total && current.onDemand > desired.onDemand then ScaleDownOnDemand
      else if current.onDemand > desired.onDemand && current.spot < desired.spot then MigrateToSpot
      else if current.spot > desired.spot && current.onDemand < desired.onDemand then MigrateToOnDemand
      else NoAction
  }

  class ReplicaState {
    var totalReplicas: Int32
    var currentOnDemand: Int32
    var currentSpot: Int32
    var desiredOnDemand: Int32
    var desiredSpot: Int32

    function Current(): Split
      reads this
    {
      Split(currentOnDemand, currentSpot)
    }

    function Desired(): Split
      reads this
    {
      Split(desiredOnDemand, desiredSpot)
    }

    constructor (total: Int32, onDemand: Int32, spot: Int32)
      ensures totalReplicas == total && Current() == Split(onDemand, spot)
    {
      totalReplicas, currentOnDemand, currentSpot := total, onDemand, spot;
      desiredOnDemand, desiredSpot := 0, 0;
    }

    method CalculateDesiredDistribution(config: WorkloadConfiguration)
      modifies this`desiredOnDemand, this`desiredSpot
      ensures Desired() == DesiredSplit(totalReplicas, config)
      ensures desiredOnDemand + desiredSpot == totalReplicas
    {
      DesiredSplitSums(totalReplicas, config);
      if !config.enabled {
        desiredOnDemand, desiredSpot := totalReplicas, 0;
        return;
      }
      var outcome := Allocate(totalReplicas, config.AllocationPolicy());
      if outcome.Rejected? {
        desiredOnDemand, desiredSpot := totalReplicas, 0;
        return;
      }
      desiredOnDemand := outcome.allocation.targetOnDemand;
      desiredSpot := outcome.allocation.targetSpot;
    }

    method GetNextAction() returns (action: Action)
      ensures action == NextAction(totalReplicas, Current(), Desired())
    {
      if currentOnDemand == desiredOnDemand && currentSpot == desiredSpot {
        return NoAction;
      }
      var currentTotal := Wrap32(currentOnDemand + currentSpot);
      if currentTotal < totalReplicas {
        if currentOnDemand < desiredOnDemand {
          return ScaleUpOnDemand;
        }
        if currentSpot < desiredSpot {
          return ScaleUpSpot;
        }
      }
      if currentTotal > totalReplicas {
        if currentSpot > desiredSpot {
          return ScaleDownSpot;
        }
        if currentOnDemand > desiredOnDemand {
          return ScaleDownOnDemand;
        }
      }
      if currentOnDemand > desiredOnDemand && currentSpot < desiredSpot {
        return MigrateToSpot;
      }
      if currentSpot > desiredSpot && currentOnDemand < desiredOnDemand {
        return MigrateToOnDemand;
      }
      return NoAction;
    }
  }

  /** What an action does to the counts: one replica appears, disappears or changes class. */
  ghost function Perform(a: Action, s: Split): Split {
    match a
    case NoAction => s
    case ScaleUpOnDemand => s.(onDemand := s.onDemand + 1)
    case ScaleUpSpot => s.(spot := s.spot + 1)
    case ScaleDownOnDemand => s.(onDemand := s.onDemand - 1)
    case ScaleDownSpot => s.(spot := s.spot - 1)
    case MigrateToSpot => Split(s.onDemand - 1, s.spot + 1)
    case MigrateToOnDemand => Split(s.onDemand + 1, s.spot - 1)
  }

  ghost function PerformAll(actions: seq<Action>, s: Split): Split {
    if actions == [] then s else PerformAll(actions[1..], Perform(actions[0], s))
  }

  /** The actions GetNextAction recommends, each carried out before the next is asked for. */
  ghost function Recommended(n: nat, total: Int32, s: Split, desired: Split): seq<Action> {
    if n == 0 then []
    else
      var a := NextAction(total, s, desired);
      [a] + Recommended(n - 1, total, Perform(a, s), desired)
  }

  ghost function Deficit(s: Split, desired: Split): nat {
    Max(0, desired.onDemand - s.onDemand) + Max(0, desired.spot - s.spot)
  }

  ghost function Excess(s: Split, desired: Split): nat {
    Max(0, s.onDemand - desired.onDemand) + Max(0, s.spot - desired.spot)
  }

  ghost function Distance(s: Split, desired: Split): nat {
    Max(Deficit(s, desired), Excess(s, desired))
  }

  /** Pod counts: none negative, and a total that a 32-bit count can hold. */
  ghost predicate Countable(s: Split) {
    s.onDemand >= 0 && s.spot >= 0 && IsInt32(s.onDemand + s.spot)
  }

  /** No action brings the workload more than one step closer. */
  lemma OneStepCloserAtMost(a: Action, s: Split, desired: Split)
    ensures Distance(Perform(a, s), desired) >= Distance(s, desired) - 1
  {
  }

  /** No sequence of actions reaches the goal in fewer steps than the distance. */
  lemma {:induction false} NoShortcut(actions: seq<Action>, s: Split, desired: Split)
    requires PerformAll(actions, s) == desired
    ensures |actions| >= Distance(s, desired)
  {
    if actions != [] {
      NoShortcut(actions[1..], Perform(actions[0], s), desired);
      OneStepCloserAtMost(actions[0], s, desired);
    }
  }

  /**
   * A recommendation is made exactly away from the goal, and it is a step closer. On-demand is
   * filled before spot, spot is drained before on-demand, and pods move only at the right total.
   */
  lemma RecommendationProgress(total: Int32, s: Split, desired: Split)
    requires total >= 0 && Countable(s)
    requires desired.onDemand + desired.spot == total && desired.onDemand >= 0 && desired.spot >= 0
    ensures NextAction(total, s, desired) == NoAction <==> s == desired
    ensures s != desired ==>
              var t := Perform(NextAction(total, s, desired), s);
              && Distance(t, desired) == Distance(s, desired) - 1
              && Countable(t)
              && Min(s.onDemand, desired.onDemand) <= t.onDemand
    ensures match NextAction(total, s, desired)
            case ScaleUpSpot => s.onDemand >= desired.onDemand
            case ScaleDownOnDemand => s.spot <= desired.spot
            case MigrateToSpot => s.onDemand + s.spot == total
            case MigrateToOnDemand => s.onDemand + s.spot == total
            case _ => true
  {
  }

  /** Following the recommendations for the distance reaches the desired split without pausing. */
  lemma {:induction false} RecommendationsReach(total: Int32, s: Split, desired: Split)
    requires total >= 0 && Countable(s)
    requires desired.onDemand + desired.spot == total && desired.onDemand >= 0 && desired.spot >= 0
    ensures var path := Recommended(Distance(s, desired), total, s, desired);
            && |path| == Distance(s, desired)
            && PerformAll(path, s) == desired
            && NoAction !in path
            && forall i :: 0 <= i <= |path| ==>
                 PerformAll(path[..i], s).onDemand >= Min(s.onDemand, desired.onDemand)
    decreases Distance(s, desired)
  {
    RecommendationProgress(total, s, desired);
    var n := Distance(s, desired);
    var path := Recommended(n, total, s, desired);
    if n > 0 {
      var a := NextAction(total, s, desired);
      var t := Perform(a, s);
      RecommendationsReach(total, t, desired);
      var rest := Recommended(n - 1, total, t, desired);
      assert path == [a] + rest && path[1..] == rest;
      forall i | 0 <= i <= |path|
        ensures PerformAll(path[..i], s).onDemand >= Min(s.onDemand, desired.onDemand)
      {
        if i > 0 {
          assert path[..i][1..] == rest[..i - 1];
          assert PerformAll(path[..i], s) == PerformAll(rest[..i - 1], t);
        }
      }
    }
  }

  /**
   * After CalculateDesiredDistribution, following the recommendations reaches the desired split in
   * exactly the distance, which is the least any sequence of actions needs; on the way on-demand
   * never drops below the lesser of where it started and what is desired.
   */
  lemma RecommendationsConverge(total: Int32, s: Split, config: WorkloadConfiguration)
    requires total >= 0 && Countable(s)
    ensures var desired := DesiredSplit(total, config);
            var path := Recommended(Distance(s, desired), total, s, desired);
            && |path| == Distance(s, desired)
            && PerformAll(path, s) == desired
            && NoAction !in path
            && NextAction(total, desired, desired) == NoAction
            && (forall i :: 0 <= i <= |path| ==>
                  PerformAll(path[..i], s).onDemand >= Min(s.onDemand, desired.onDemand))
            && (forall other: seq<Action> :: PerformAll(other, s) == desired ==> |other| >= |path|)
  {
    var desired := DesiredSplit(total, config);
    DesiredSplitSums(total, config);
    RecommendationsReach(total, s, desired);
    forall other: seq<Action> | PerformAll(other, s) == desired
      ensures |other| >= Distance(s, desired)
    {
      NoShortcut(other, s, desired);
    }
  }

  /** In any state at all, an action is recommended only where it is needed, and none only where none is. */
  lemma ActionIsNeeded(total: Int32, s: Split, desired: Split)
    ensures var current := Wrap32(s.onDemand + s.spot);
            match NextAction(total, s, desired)
            case ScaleUpOnDemand => current < total && s.onDemand < desired.onDemand
            case ScaleUpSpot => current < total && s.onDemand >= desired.onDemand && s.spot < desired.spot
            case ScaleDownSpot => current > total && s.spot > desired.spot
            case ScaleDownOnDemand => current > total && s.spot <= desired.spot && s.onDemand > desired.onDemand
            case MigrateToSpot => s.onDemand > desired.onDemand && s.spot < desired.spot
            case MigrateToOnDemand => s.onDemand < desired.onDemand && s.spot > desired.spot
            case NoAction =>
              && (current < total ==> s.onDemand >= desired.onDemand && s.spot >= desired.spot)
              && (current > total ==> s.onDemand <= desired.onDemand && s.spot <= desired.spot)
              && !(s.onDemand > desired.onDemand && s.spot < desired.spot)
              && !(s.onDemand < desired.onDemand && s.spot > desired.spot)
    ensures var current, a := Wrap32(s.onDemand + s.spot), NextAction(total, s, desired);
            && (current < total && s.onDemand < desired.onDemand ==> a == ScaleUpOnDemand)
            && (current > total && s.spot > desired.spot ==> a == ScaleDownSpot)
            && (a == MigrateToSpot && current < total ==> s.spot >= desired.spot)
            && (a == MigrateToSpot && current > total ==> s.onDemand <= desired.onDemand)
            && (a == MigrateToOnDemand && current < total ==> s.onDemand >= desired.onDemand)
            && (a == MigrateToOnDemand && current > total ==> s.spot <= desired.spot)
  {
  }
}
