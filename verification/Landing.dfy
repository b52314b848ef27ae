/**
 * Where patched pods land: the label that the webhook asks for (pkg/webhook/mutate.go) against the
 * rules by which the node it leads to is classified (internal/config/node_classifier.go).
 */
module Landing {
  import GoInt
  import opened Observation
  import opened Strconv
  import opened ReplicaStates
  import opened Selection
  import opened Placement
  import Nodes = NodeClassifier
  import Pods = PodMutation

  predicate SpotAt(text: string, i: nat) {
    && i + 4 <= |text|
    && (text[i] == 's' || text[i] == 'S') && (text[i + 1] == 'p' || text[i + 1] == 'P')
    && (text[i + 2] == 'o' || text[i + 2] == 'O') && (text[i + 3] == 't' || text[i + 3] == 'T')
  }

  /** The name of an instance type has the word "spot" in it, in any mixture of cases. */
  ghost predicate NamesSpot(text: string) {
    exists i: nat :: SpotAt(text, i)
  }

  lemma NamesSpotInAnyCase(text: string)
    ensures Contains(ToLower(text), "spot") <==> NamesSpot(text)
  {
    ContainsIsSomewhere(ToLower(text), "spot");
    forall i: nat ensures PartAt(ToLower(text), "spot", i) <==> SpotAt(text, i) {
      WordInLower(text, "spot", i);
    }
  }

  const EKS := "eks.amazonaws.com/capacityType"
  const INSTANCE := "node.kubernetes.io/instance-type"
  const KARPENTER := "karpenter.sh/capacity-type"
  const GKE := "cloud.google.com/gke-preemptible"
  const AZURE := "kubernetes.azure.com/scalesetpriority"

  predicate Says(labels: map<string, string>, key: string, value: string) {
    key in labels && labels[key] == value
  }

  /** The provider's labels under an instance type decide: the managed node group's, or else Karpenter's. */
  ghost predicate TypedSays(labels: map<string, string>, eks: string, karpenter: string) {
    && INSTANCE in labels
    && (|| Says(labels, EKS, eks)
        || (!Says(labels, EKS, "SPOT") && !Says(labels, EKS, "ON_DEMAND") && Says(labels, KARPENTER, karpenter)))
  }

  /** Nothing under an instance type decides. */
  ghost predicate TypeIsSilent(labels: map<string, string>) {
    INSTANCE in labels ==>
      && !Says(labels, EKS, "SPOT") && !Says(labels, EKS, "ON_DEMAND")
      && !Says(labels, KARPENTER, "spot") && !Says(labels, KARPENTER, "on-demand")
      && !NamesSpot(labels[INSTANCE])
  }

  /** The provider's own labels, label by label: when they alone make a node spot, on-demand or unknown. */
  ghost predicate ProviderSpot(labels: map<string, string>) {
    || TypedSays(labels, "SPOT", "spot")
    || (INSTANCE in labels && !TypedSays(labels, "ON_DEMAND", "on-demand") && NamesSpot(labels[INSTANCE]))
    || (TypeIsSilent(labels) && (GKE in labels || Says(labels, AZURE, "spot")))
  }

  ghost predicate ProviderOnDemand(labels: map<string, string>) {
    || TypedSays(labels, "ON_DEMAND", "on-demand")
    || (TypeIsSilent(labels) && GKE !in labels && Says(labels, AZURE, "regular"))
  }

  /** Without rules a node's class is what the provider's labels say. */
  lemma NoRulesClassify(node: Nodes.Node, refreshInterval: int)
    ensures var kind := Nodes.Classify(Nodes.Config(map[], map[], refreshInterval), node);
            && (kind == Spot <==> ProviderSpot(node.labels))
            && (kind == OnDemand <==> ProviderOnDemand(node.labels))
  {
    if INSTANCE in node.labels {
      NamesSpotInAnyCase(node.labels[INSTANCE]);
    }
  }

  /**
   * Under the operator's rules the Karpenter label decides; where it names neither class, the
   * provider's labels do.
   */
  lemma WiredClassify(node: Nodes.Node)
    ensures var kind := Nodes.Classify(WIRED, node);
            && (kind == Spot <==>
                  || Says(node.labels, KARPENTER, "spot")
                  || (!Says(node.labels, KARPENTER, "on-demand") && ProviderSpot(node.labels)))
            && (kind == OnDemand <==>
                  || Says(node.labels, KARPENTER, "on-demand")
                  || (!Says(node.labels, KARPENTER, "spot") && ProviderOnDemand(node.labels)))
  {
    NoRulesClassify(node, 0);
    assert Nodes.Matches(WIRED.spotLabels, node.labels) <==> Says(node.labels, KARPENTER, "spot") by {
      assert Nodes.LabelMatches(WIRED.spotLabels[KARPENTER], node.labels, KARPENTER) <==>
             Says(node.labels, KARPENTER, "spot");
    }
    assert Nodes.Matches(WIRED.onDemandLabels, node.labels) <==> Says(node.labels, KARPENTER, "on-demand") by {
      assert Nodes.LabelMatches(WIRED.onDemandLabels[KARPENTER], node.labels, KARPENTER) <==>
             Says(node.labels, KARPENTER, "on-demand");
    }
  }

  /** Classifier rules on the one label that the webhook writes. */
  function RulesOf(lc: Pods.LabelConfig, refreshInterval: int): Nodes.Config {
    Nodes.Config(map[lc.key := lc.spotValue], map[lc.key := lc.onDemandValue], refreshInterval)
  }

  /** The rules of pkg/operator/operator.go. */
  const WIRED := Nodes.Config(
    map["karpenter.sh/capacity-type" := "spot"], map["karpenter.sh/capacity-type" := "on-demand"], 30_000_000_000)

  /** The scheduler puts a pod only on nodes that carry all labels of its node selector. */
  predicate Admits(node: Nodes.Node, selector: Pods.NodeSelector) {
    selector.Given? ==> forall k :: k in selector.labels ==> Nodes.LabelIs(node.labels, k, selector.labels[k])
  }

  /** If the node admits the patched pod, it is of the class that the pod was patched for. */
  ghost predicate Lands(
      rules: Nodes.Config, lc: Pods.LabelConfig, pod: Pods.PodObject, kind: Capacity, node: Nodes.Node)
  {
    kind != Unknown && Admits(node, Pods.Labelled(pod, lc.key, lc.Value(kind)).selector)
    ==> Nodes.Classify(rules, node) == kind
  }

  ghost predicate AllLand(rules: Nodes.Config, lc: Pods.LabelConfig) {
    forall pod, kind, node :: Lands(rules, lc, pod, kind, node)
  }

  lemma OneLabelDecides(lc: Pods.LabelConfig, node: Nodes.Node, refreshInterval: int)
    requires lc.key in node.labels
    ensures var value := node.labels[lc.key];
            && (lc.spotValue == "*" || value == lc.spotValue ==>
                  Nodes.Classify(RulesOf(lc, refreshInterval), node) == Spot)
            && (lc.spotValue != "*" && value != lc.spotValue && value == lc.onDemandValue ==>
                  Nodes.Classify(RulesOf(lc, refreshInterval), node) == OnDemand)
  {
    var rules := RulesOf(lc, refreshInterval);
    if lc.spotValue == "*" || node.labels[lc.key] == lc.spotValue {
      assert Nodes.LabelMatches(rules.spotLabels[lc.key], node.labels, lc.key);
    } else if node.labels[lc.key] == lc.onDemandValue {
      assert Nodes.LabelMatches(rules.onDemandLabels[lc.key], node.labels, lc.key);
    }
  }

  lemma AdmittedCarries(lc: Pods.LabelConfig, pod: Pods.PodObject, kind: Capacity, node: Nodes.Node)
    requires Admits(node, Pods.Labelled(pod, lc.key, lc.Value(kind)).selector)
    ensures Nodes.LabelIs(node.labels, lc.key, lc.Value(kind))
  {
    var labels := Pods.Labelled(pod, lc.key, lc.Value(kind)).selector.labels;
    assert lc.key in labels && labels[lc.key] == lc.Value(kind);
  }

  /**
   * Every pod lands on the class it was patched for, if and only if the two values of the label
   * differ and the spot value is not the wildcard.
   */
  lemma AllLandIff(lc: Pods.LabelConfig, refreshInterval: int)
    ensures AllLand(RulesOf(lc, refreshInterval), lc) <==> lc.spotValue != lc.onDemandValue && lc.spotValue != "*"
  {
    var rules := RulesOf(lc, refreshInterval);
    if lc.spotValue != lc.onDemandValue && lc.spotValue != "*" {
      forall pod, kind, node ensures Lands(rules, lc, pod, kind, node) {
        if kind != Unknown && Admits(node, Pods.Labelled(pod, lc.key, lc.Value(kind)).selector) {
          AdmittedCarries(lc, pod, kind, node);
          OneLabelDecides(lc, node, refreshInterval);
        }
      }
    } else {
      var pod := Pods.PodObject(Pods.Absent, Pods.NodeAffinity([], []), map[], map[]);
      var node := Nodes.Node("", map[lc.key := lc.onDemandValue]);
      OneLabelDecides(lc, node, refreshInterval);
      assert !Lands(rules, lc, pod, OnDemand, node);
    }
  }

  /**
   * Under the operator's wiring every running pod that was patched counts as the class it was
   * patched for, on whatever node it was put.
   */
  lemma PatchedPodCounts(
      lc: Pods.LabelConfig, spec: Pods.PodObject, kind: Capacity, pod: Pod, node: Nodes.Node,
      types: map<string, Capacity>)
    requires Pods.MayAnswer(Pods.Defaults, lc) && kind != Unknown
    requires Admits(node, Pods.Labelled(spec, lc.key, lc.Value(kind)).selector)
    requires pod.nodeName != "" && !pod.deleting && !IsTerminal(pod)
    requires pod.nodeName in types && types[pod.nodeName] == Nodes.Classify(WIRED, node)
    ensures forall k :: k != Unknown ==> (Counted(ObservedAs(pod, types), k) <==> k == kind)
  {
    assert RulesOf(lc, 30_000_000_000) == WIRED;
    AllLandIff(lc, 30_000_000_000);
    assert Lands(WIRED, lc, spec, kind, node);
  }

  /** All nodes have an instance type and are classified by the built-in rules. */
  ghost predicate TypedByDefault(c: Cluster, nodes: map<string, Nodes.Node>) {
    forall n :: n in c.types ==>
      && n in nodes && Nodes.INSTANCE_TYPE in nodes[n].labels
      && c.types[n] == Nodes.Classify(Nodes.DEFAULTS, nodes[n])
  }

  lemma {:induction false} NothingOnDemand(pods: seq<Pod>, types: map<string, Capacity>)
    requires forall n :: n in types ==> types[n] != OnDemand
    ensures CountOf(Snapshot(pods, types), OnDemand) == 0
  {
    if pods != [] {
      NothingOnDemand(pods[1..], types);
      assert Snapshot(pods, types)[1..] == Snapshot(pods[1..], types);
    }
  }

  /**
   * There a workload that wants an on-demand pod is never on target, whatever its pods were patched
   * for: it counts none, and there is always a pod to evict.
   */
  lemma DefaultRulesNeverSettle(c: Cluster, nodes: map<string, Nodes.Node>, a: Aim)
    requires TypedByDefault(c, nodes) && Settled(c, a.total) && a.total >= 0 && a.Desired().onDemand > 0
    ensures c.Counts().onDemand == 0
    ensures var d := a.Desired();
            && NeedsRebalancing(c.Counts(), d)
            && GoInt.IsInt32(d.spot) && GoInt.IsInt32(d.onDemand)
            && Selected(c.View(), d.spot, d.onDemand) != []
  {
    forall n | n in c.types ensures c.types[n] != OnDemand {
      Nodes.DefaultRulesCallTypedNodesSpot(nodes[n]);
    }
    NothingOnDemand(c.pods, c.types);
    EvictsExactlyOffTarget(c, a);
  }
}
