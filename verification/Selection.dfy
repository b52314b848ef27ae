/**
 * The controllers' choice of pods to evict: selectPodsForDeletion of
 * pkg/controllers/deployment_controller.go and pkg/controllers/statefulset_controller.go, and the
 * ordinal order in which the StatefulSet controller evicts.
 */
module Selection {
  import opened GoInt
  import opened Strconv
  import opened Observation

  /** The pods of one class that are selected: the first `count - desired`, in 32-bit arithmetic. */
  function ExcessPods(pods: seq<Pod>, desired: Int32): (r: seq<Pod>)
    requires |pods| <= MAX_INT32
    ensures r <= pods
  {
    if |pods| <= desired then [] else pods[..Max(0, Min(Wrap32(|pods| - desired), |pods|))]
  }

  /** The loop that appends one class's excess to what is selected so far. */
  method AppendExcess(selected: seq<Pod>, pods: seq<Pod>, desired: Int32) returns (r: seq<Pod>)
    requires |pods| <= MAX_INT32
    ensures r == selected + ExcessPods(pods, desired)
  {
    r := selected;
    if |pods| > desired {
      var excess := Wrap32(|pods| - desired);
      var i := 0;
      while i < excess && i < |pods|
        invariant 0 <= i <= Max(0, Min(excess, |pods|))
        invariant r == selected + pods[..i]
      {
        r := r + [pods[i]];
        i := i + 1;
      }
    }
  }

  /** selectPodsForDeletion, which the two controllers write alike: spot first, then on-demand. */
  method SelectPodsForDeletion(
      spotPods: seq<Pod>, onDemandPods: seq<Pod>, desiredSpot: Int32, desiredOnDemand: Int32)
    returns (selected: seq<Pod>)
    requires |spotPods| <= MAX_INT32 && |onDemandPods| <= MAX_INT32
    ensures selected == ExcessPods(spotPods, desiredSpot) + ExcessPods(onDemandPods, desiredOnDemand)
  {
    selected := AppendExcess([], spotPods, desiredSpot);
    selected := AppendExcess(selected, onDemandPods, desiredOnDemand);
  }

  ghost function Selected(s: seq<Observed>, desiredSpot: Int32, desiredOnDemand: Int32): seq<Pod>
    requires |s| <= MAX_INT32
  {
    ExcessPods(EligibleOf(s, Spot), desiredSpot) + ExcessPods(EligibleOf(s, OnDemand), desiredOnDemand)
  }

  ghost function DesiredOf(kind: Capacity, desiredSpot: Int32, desiredOnDemand: Int32): Int32
    requires kind != Unknown
  {
    if kind == Spot then desiredSpot else desiredOnDemand
  }

  /** How many pods are selected: the excess, or none at all when the 32-bit difference wraps. */
  lemma ExcessSize(pods: seq<Pod>, desired: Int32)
    requires |pods| <= MAX_INT32
    ensures var n := |ExcessPods(pods, desired)|;
            && (n > 0 ==> |pods| - n >= desired)
            && (desired >= 0 ==> n == Max(0, |pods| - desired))
  {
    var difference := |pods| - desired;
    assert IsInt32(difference) || difference - 0x1_0000_0000 == Wrap32(difference) < 0;
  }

  /**
   * Evicting everything that is selected never takes a class it selects from below that class's
   * desired count of actual pods, and it selects nothing but disruptible pods of that class.
   */
  lemma SelectionIsSafe(
      pods: seq<Pod>, types: map<string, Capacity>, kind: Capacity, desiredSpot: Int32, desiredOnDemand: Int32)
    requires |pods| <= MAX_INT32 && kind != Unknown
    ensures var s := Snapshot(pods, types);
            var desired := DesiredOf(kind, desiredSpot, desiredOnDemand);
            var chosen := ExcessPods(EligibleOf(s, kind), desired);
            && (chosen != [] ==> CountOf(s, kind) - |chosen| >= desired)
            && (desired >= 0 ==> |chosen| == Max(0, |EligibleOf(s, kind)| - desired))
            && (forall p :: p in chosen ==> p in pods && Disruptible(p, kind, types))
  {
    var s := Snapshot(pods, types);
    var desired := DesiredOf(kind, desiredSpot, desiredOnDemand);
    EligibleAreCounted(s, kind);
    EligibleAreDisruptible(pods, types, kind);
    ExcessSize(EligibleOf(s, kind), desired);
    var chosen := ExcessPods(EligibleOf(s, kind), desired);
    forall p | p in chosen ensures p in pods && Disruptible(p, kind, types) {
      assert p in EligibleOf(s, kind);
    }
  }

  datatype Ordinal = Ordinal(value: int) | NoOrdinal

  /** extractPodOrdinal: the number after the StatefulSet's name and a dash. */
  function ExtractPodOrdinal(podName: string, statefulSetName: string): Ordinal {
    var prefix := statefulSetName + "-";
    if !(prefix <= podName) then NoOrdinal
    else match ParseInt(podName[|prefix|..], 64)
      case Number(n) => Ordinal(n)
      case NotANumber => NoOrdinal
  }

  /** The sort key: pods without a readable ordinal sort as -1. */
  function SortKey(pod: Pod, statefulSetName: string): int {
    match ExtractPodOrdinal(pod.name, statefulSetName)
    case Ordinal(n) => n
    case NoOrdinal => -1
  }

  /** The names Kubernetes gives to a StatefulSet's pods read back as their ordinals. */
  lemma OrdinalOfGeneratedName(statefulSetName: string, n: nat)
    requires n <= 0x7fff_ffff_ffff_ffff
    ensures ExtractPodOrdinal(statefulSetName + "-" + FormatInt(n), statefulSetName) == Ordinal(n)
  {
    var prefix := statefulSetName + "-";
    assert (prefix + FormatInt(n))[|prefix|..] == FormatInt(n);
    ParseFormat(n, 64);
  }

  /** A pod whose name is not the StatefulSet's with a number sorts after every generated one. */
  lemma ForeignPodsSortLast(pod: Pod, name: string, n: nat)
    requires n <= 0x7fff_ffff_ffff_ffff
    ensures ExtractPodOrdinal(pod.name, name).NoOrdinal? ==> SortKey(pod, name) == -1
    ensures pod.name == name + "-" + FormatInt(n) ==> SortKey(pod, name) == n
    ensures |pod.name| <= |name| || pod.name[..|name|] != name || pod.name[|name|] != '-' ==>
              ExtractPodOrdinal(pod.name, name).NoOrdinal?
  {
    OrdinalOfGeneratedName(name, n);
    if name + "-" <= pod.name {
      assert pod.name[..|name|] == (name + "-")[..|name|] == name;
      assert pod.name[|name|] == (name + "-")[|name|];
    }
  }

  ghost predicate Descending(pods: seq<Pod>, key: Pod -> int) {
    forall i, j :: 0 <= i < j < |pods| ==> key(pods[i]) >= key(pods[j])
  }

  lemma Inserted(pods: seq<Pod>, pod: Pod, key: Pod -> int, k: nat)
    requires Descending(pods, key) && k <= |pods|
    requires forall i :: 0 <= i < k ==> key(pods[i]) > key(pod)
    requires k < |pods| ==> key(pods[k]) <= key(pod)
    ensures Descending(pods[..k] + [pod] + pods[k..], key)
  {
    var r := pods[..k] + [pod] + pods[k..];
    forall i, j | 0 <= i < j < |r| ensures key(r[i]) >= key(r[j]) {
      if j > k {
        assert r[j] == pods[j - 1];
        assert key(pods[k]) >= key(pods[j - 1]);
        if i > k {
          assert r[i] == pods[i - 1];
        }
      }
    }
  }

  lemma InsertedContents(pods: seq<Pod>, pod: Pod, k: nat)
    requires k <= |pods|
    ensures multiset(pods[..k] + [pod] + pods[k..]) == multiset(pods) + multiset{pod}
  {
    assert pods == pods[..k] + pods[k..];
  }

  /** Puts one pod into a descending list. */
  method InsertDescending(pods: seq<Pod>, pod: Pod, key: Pod -> int) returns (r: seq<Pod>)
    requires Descending(pods, key)
    ensures Descending(r, key)
    ensures multiset(r) == multiset(pods) + multiset{pod}
  {
    var k := 0;
    while k < |pods| && key(pods[k]) > key(pod)
      invariant 0 <= k <= |pods|
      invariant forall i :: 0 <= i < k ==> key(pods[i]) > key(pod)
    {
      k := k + 1;
    }
    r := pods[..k] + [pod] + pods[k..];
    Inserted(pods, pod, key, k);
    InsertedContents(pods, pod, k);
  }

  /** sortPodsByOrdinal; the library sort it calls promises an ordered permutation, ties in any order. */
  method SortPodsByOrdinal(pods: seq<Pod>, name: string) returns (r: seq<Pod>)
    ensures Descending(r, (p: Pod) => SortKey(p, name))
    ensures multiset(r) == multiset(pods)
  {
    var key := (p: Pod) => SortKey(p, name);
    r := [];
    for i := 0 to |pods|
      invariant Descending(r, key)
      invariant multiset(r) == multiset(pods[..i])
    {
      r := InsertDescending(r, pods[i], key);
      assert pods[..i + 1] == pods[..i] + [pods[i]];
    }
    assert pods[..|pods|] == pods;
  }

  ghost predicate IsHighestOrdinal(pod: Pod, pods: seq<Pod>, name: string) {
    pod in pods && forall p :: p in pods ==> SortKey(p, name) <= SortKey(pod, name)
  }

  /** The pod executeGradualRebalancing evicts: one of the selected, of the highest ordinal. */
  method StatefulSetVictim(selected: seq<Pod>, name: string) returns (victim: Pod)
    requires selected != []
    ensures IsHighestOrdinal(victim, selected, name)
  {
    var sorted := SortPodsByOrdinal(selected, name);
    assert |sorted| == |multiset(sorted)| == |multiset(selected)| == |selected|;
    victim := sorted[0];
    assert victim in multiset(sorted);
    ghost var key := (p: Pod) => SortKey(p, name);
    forall p | p in selected ensures SortKey(p, name) <= SortKey(victim, name) {
      assert p in multiset(sorted);
      var j :| 0 <= j < |sorted| && sorted[j] == p;
      assert key(sorted[0]) >= key(sorted[j]);
    }
  }
}
