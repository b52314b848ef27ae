/** pkg/observation/workload.go: what a snapshot of a workload's pods says about each of them. */
module Observation {
  import opened GoInt

  datatype Capacity = Spot | OnDemand | Unknown

  datatype Phase = PhasePending | PhaseRunning | PhaseSucceeded | PhaseFailed | PhaseUnknown

  datatype Condition = Condition(kind: string, status: string)

  /** The parts of a Kubernetes Pod that observation reads. */
  datatype Pod = Pod(
    name: string,
    nodeName: string,
    phase: Phase,
    deleting: bool,
    conditions: seq<Condition>)

  datatype Lifecycle = Terminal | Terminating | PendingUnscheduled | ScheduledNotReady | Ready

  datatype Observed = Observed(pod: Pod, lifecycle: Lifecycle, capacity: Capacity)

  /** The batch classification of assigned nodes; a failed one classifies nothing. */
  datatype Classification = Classified(types: map<string, Capacity>) | ClassificationFailed
  {
    function Types(): map<string, Capacity> {
      if Classified? then types else map[]
    }
  }

  predicate IsTerminal(pod: Pod) {
    pod.phase == PhaseSucceeded || pod.phase == PhaseFailed
  }

  /** The first Ready condition decides. */
  predicate IsReady(conditions: seq<Condition>) {
    conditions != [] &&
    if conditions[0].kind == "Ready" then conditions[0].status == "True" else IsReady(conditions[1..])
  }

  function LifecycleFor(pod: Pod): Lifecycle {
    if IsTerminal(pod) then Terminal
    else if pod.deleting then Terminating
    else if pod.nodeName == "" && pod.phase == PhasePending then PendingUnscheduled
    else if IsReady(pod.conditions) then Ready
    else ScheduledNotReady
  }

  function CapacityFor(pod: Pod, types: map<string, Capacity>): Capacity {
    if pod.nodeName == "" || pod.deleting || IsTerminal(pod) then Unknown
    else if pod.nodeName in types then types[pod.nodeName]
    else Unknown
  }

  function ObservedAs(pod: Pod, types: map<string, Capacity>): Observed {
    Observed(pod, LifecycleFor(pod), CapacityFor(pod, types))
  }

  function Snapshot(pods: seq<Pod>, types: map<string, Capacity>): (s: seq<Observed>)
    ensures |s| == |pods|
    ensures forall i :: 0 <= i < |pods| ==> s[i] == ObservedAs(pods[i], types)
  {
    if pods == [] then [] else [ObservedAs(pods[0], types)] + Snapshot(pods[1..], types)
  }

  /** A pod that ActualCounts counts for `kind`. */
  predicate Counted(o: Observed, kind: Capacity) {
    o.lifecycle != Terminal && o.lifecycle != Terminating && o.capacity == kind
  }

  function CountOf(s: seq<Observed>, kind: Capacity): (n: nat)
    ensures n <= |s|
  {
    if s == [] then 0
    else (if Counted(s[0], kind) then 1 else 0) + CountOf(s[1..], kind)
  }

  /** The Ready pods proven to run on `kind`, in snapshot order. */
  function EligibleOf(s: seq<Observed>, kind: Capacity): (r: seq<Pod>)
    ensures |r| <= |s|
  {
    if s == [] then []
    else (if s[0].lifecycle == Ready && s[0].capacity == kind then [s[0].pod] else [])
         + EligibleOf(s[1..], kind)
  }

  /**
   * Observe, given what the API returned for the workload's pods. Only the nodes of running,
   * assigned pods are classified, and none are when there is nothing to classify.
   */
  method Observe(pods: seq<Pod>, classify: Classification)
    returns (nodeNames: seq<string>, classificationError: bool, snapshot: seq<Observed>)
    ensures forall n :: n in nodeNames <==>
              exists i :: 0 <= i < |pods| && pods[i].nodeName == n
                          && n != "" && !pods[i].deleting && !IsTerminal(pods[i])
    ensures classificationError <==> nodeNames != [] && classify.ClassificationFailed?
    ensures snapshot == Snapshot(pods, classify.Types())
  {
    nodeNames := [];
    for i := 0 to |pods|
      invariant forall n :: n in nodeNames <==>
                  exists k :: 0 <= k < i && pods[k].nodeName == n
                              && n != "" && !pods[k].deleting && !IsTerminal(pods[k])
    {
      if pods[i].nodeName != "" && !pods[i].deleting && !IsTerminal(pods[i]) {
        nodeNames := nodeNames + [pods[i].nodeName];
      }
    }
    var types := map[];
    classificationError := false;
    if |nodeNames| > 0 {
      classificationError := classify.ClassificationFailed?;
      if !classificationError {
        types := classify.types;
      }
    }
    snapshot := [];
    for i := 0 to |pods|
      invariant |snapshot| == i
      invariant forall k :: 0 <= k < i ==> snapshot[k] == ObservedAs(pods[k], classify.Types())
    {
      if nodeNames == [] {
        assert pods[i].nodeName !in nodeNames;
      }
      snapshot := snapshot + [ObservedAs(pods[i], types)];
    }
    assert snapshot == Snapshot(pods, classify.Types());
  }

  lemma {:induction false} CountSplits(a: seq<Observed>, b: seq<Observed>, kind: Capacity)
    ensures CountOf(a + b, kind) == CountOf(a, kind) + CountOf(b, kind)
  {
    if a == [] {
      assert a + b == b;
    } else {
      assert (a + b)[1..] == a[1..] + b;
      CountSplits(a[1..], b, kind);
    }
  }

  lemma Regroup(a: seq<Pod>, b: seq<Pod>, c: seq<Pod>)
    ensures a + (b + c) == a + b + c
  {
  }

  lemma {:induction false} EligibleSplits(a: seq<Observed>, b: seq<Observed>, kind: Capacity)
    ensures EligibleOf(a + b, kind) == EligibleOf(a, kind) + EligibleOf(b, kind)
  {
    if a == [] {
      assert a + b == b;
    } else {
      var first := if a[0].lifecycle == Ready && a[0].capacity == kind then [a[0].pod] else [];
      assert (a + b)[0] == a[0] && (a + b)[1..] == a[1..] + b;
      EligibleSplits(a[1..], b, kind);
      Regroup(first, EligibleOf(a[1..], kind), EligibleOf(b, kind));
    }
  }

  /** ActualCounts; a workload never has more pods than a 32-bit count holds. */
  method ActualCounts(s: seq<Observed>) returns (spot: Int32, onDemand: Int32)
    requires |s| <= MAX_INT32
    ensures spot == CountOf(s, Spot) && onDemand == CountOf(s, OnDemand)
  {
    spot, onDemand := 0, 0;
    for i := 0 to |s|
      invariant spot == CountOf(s[..i], Spot) && onDemand == CountOf(s[..i], OnDemand)
    {
      assert s[..i + 1] == s[..i] + [s[i]];
      CountSplits(s[..i], [s[i]], Spot);
      CountSplits(s[..i], [s[i]], OnDemand);
      if s[i].lifecycle == Terminal || s[i].lifecycle == Terminating {
        continue;
      }
      match s[i].capacity {
        case Spot => spot := spot + 1;
        case OnDemand => onDemand := onDemand + 1;
        case Unknown =>
      }
    }
    assert s[..|s|] == s;
  }

  method EligiblePods(s: seq<Observed>) returns (spot: seq<Pod>, onDemand: seq<Pod>)
    ensures spot == EligibleOf(s, Spot) && onDemand == EligibleOf(s, OnDemand)
  {
    spot, onDemand := [], [];
    for i := 0 to |s|
      invariant spot == EligibleOf(s[..i], Spot) && onDemand == EligibleOf(s[..i], OnDemand)
    {
      assert s[..i + 1] == s[..i] + [s[i]];
      EligibleSplits(s[..i], [s[i]], Spot);
      EligibleSplits(s[..i], [s[i]], OnDemand);
      if s[i].lifecycle != Ready {
        continue;
      }
      match s[i].capacity {
        case Spot => spot := spot + [s[i].pod];
        case OnDemand => onDemand := onDemand + [s[i].pod];
        case Unknown =>
      }
    }
    assert s[..|s|] == s;
  }

  /** Every eligible pod is counted, so a class has at least as many actual as eligible pods. */
  lemma {:induction false} EligibleAreCounted(s: seq<Observed>, kind: Capacity)
    ensures |EligibleOf(s, kind)| <= CountOf(s, kind)
  {
    if s != [] {
      EligibleAreCounted(s[1..], kind);
    }
  }

  /** A pod safe to disrupt: Ready, staying, and assigned to a node of the class `kind`. */
  ghost predicate Disruptible(pod: Pod, kind: Capacity, types: map<string, Capacity>) {
    && IsReady(pod.conditions)
    && !pod.deleting
    && !IsTerminal(pod)
    && pod.nodeName != ""
    && pod.nodeName in types && types[pod.nodeName] == kind
  }

  /** The eligible pods of a known class are exactly the disruptible ones among those observed. */
  lemma {:induction false} EligibleAreDisruptible(pods: seq<Pod>, types: map<string, Capacity>, kind: Capacity)
    requires kind != Unknown
    ensures forall p :: p in EligibleOf(Snapshot(pods, types), kind) <==> p in pods && Disruptible(p, kind, types)
  {
    if pods != [] {
      EligibleAreDisruptible(pods[1..], types, kind);
      var s := Snapshot(pods, types);
      assert s[1..] == Snapshot(pods[1..], types);
      assert forall p :: p in pods <==> p == pods[0] || p in pods[1..];
    }
  }

  /** A pod is Ready by its first condition of that kind. */
  lemma {:induction false} ReadyByFirstCondition(conditions: seq<Condition>)
    ensures IsReady(conditions) <==>
              exists i :: 0 <= i < |conditions| && conditions[i] == Condition("Ready", "True")
                          && forall j :: 0 <= j < i ==> conditions[j].kind != "Ready"
  {
    if conditions != [] && conditions[0].kind != "Ready" {
      ReadyByFirstCondition(conditions[1..]);
      if IsReady(conditions[1..]) {
        var i :| 0 <= i < |conditions[1..]| && conditions[1..][i] == Condition("Ready", "True")
                 && forall j :: 0 <= j < i ==> conditions[1..][j].kind != "Ready";
        assert conditions[i + 1] == Condition("Ready", "True");
        assert forall j :: 0 < j < i + 1 ==> conditions[j] == conditions[1..][j - 1];
      }
      forall i | 0 <= i < |conditions| && conditions[i] == Condition("Ready", "True")
                 && forall j :: 0 <= j < i ==> conditions[j].kind != "Ready"
        ensures IsReady(conditions[1..])
      {
        assert conditions[1..][i - 1] == Condition("Ready", "True");
        assert forall j :: 0 <= j < i - 1 ==> conditions[1..][j] == conditions[j + 1];
      }
    }
  }

  /** Each lifecycle in terms of the pod alone; a terminated pod is neither Ready nor terminating. */
  lemma LifecycleIff(pod: Pod)
    ensures var l := LifecycleFor(pod);
            && (l == Terminal <==> pod.phase == PhaseSucceeded || pod.phase == PhaseFailed)
            && (l == Terminating <==> pod.phase != PhaseSucceeded && pod.phase != PhaseFailed && pod.deleting)
            && (l == PendingUnscheduled <==> pod.phase == PhasePending && !pod.deleting && pod.nodeName == [])
            && (l == Ready <==>
                  && pod.phase != PhaseSucceeded && pod.phase != PhaseFailed && !pod.deleting
                  && !(pod.phase == PhasePending && pod.nodeName == [])
                  && exists i :: 0 <= i < |pod.conditions| && pod.conditions[i] == Condition("Ready", "True")
                                 && forall j :: 0 <= j < i ==> pod.conditions[j].kind != "Ready")
  {
    ReadyByFirstCondition(pod.conditions);
  }

  /** What a pod counts for: the class of its node, if it is assigned, staying and not finished. */
  lemma CountsForItsNode(pod: Pod, types: map<string, Capacity>, kind: Capacity)
    requires kind != Unknown
    ensures Counted(ObservedAs(pod, types), kind) <==>
              && pod.nodeName != [] && pod.nodeName in types && types[pod.nodeName] == kind
              && !pod.deleting && pod.phase != PhaseSucceeded && pod.phase != PhaseFailed
  {
  }

  /** A count goes pod by pod. */
  lemma CountedOneByOne(pods: seq<Pod>, pod: Pod, types: map<string, Capacity>, kind: Capacity)
    ensures CountOf(Snapshot([], types), kind) == 0
    ensures CountOf(Snapshot(pods + [pod], types), kind)
         == CountOf(Snapshot(pods, types), kind) + (if Counted(ObservedAs(pod, types), kind) then 1 else 0)
  {
    assert Snapshot(pods + [pod], types) == Snapshot(pods, types) + Snapshot([pod], types);
    CountSplits(Snapshot(pods, types), Snapshot([pod], types), kind);
    assert Snapshot([pod], types)[1..] == [];
  }
}
