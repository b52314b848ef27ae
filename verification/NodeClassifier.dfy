/**
 * internal/config/node_classifier.go: node classification by labels and its cache. The clock, the
 * node listing and the single-node reads are parameters; each method is one atomic operation.
 */
module NodeClassifier {
  import opened Strconv
  import opened Observation
  import opened GoTime

  type Labels = map<string, string>

  datatype Node = Node(name: string, labels: Labels)

  datatype Config = Config(spotLabels: Labels, onDemandLabels: Labels, refreshInterval: int)

  const CAPACITY_TYPE := "karpenter.sh/capacity-type"
  const INSTANCE_TYPE := "node.kubernetes.io/instance-type"
  const GKE_PREEMPTIBLE := "cloud.google.com/gke-preemptible"
  const AZURE_PRIORITY := "kubernetes.azure.com/scalesetpriority"
  const EKS_CAPACITY_TYPE := "eks.amazonaws.com/capacityType"

  predicate LabelMatches(expected: string, labels: Labels, key: string) {
    key in labels && (expected == "*" || labels[key] == expected)
  }

  ghost predicate Matches(rules: Labels, labels: Labels) {
    exists k :: k in rules && LabelMatches(rules[k], labels, k)
  }

  predicate LabelIs(labels: Labels, key: string, value: string) {
    key in labels && labels[key] == value
  }

  /** classifyByCloudProvider */
  function ByCloudProvider(labels: Labels): Capacity {
    if INSTANCE_TYPE in labels && LabelIs(labels, EKS_CAPACITY_TYPE, "SPOT") then Spot
    else if INSTANCE_TYPE in labels && LabelIs(labels, EKS_CAPACITY_TYPE, "ON_DEMAND") then OnDemand
    else if INSTANCE_TYPE in labels && LabelIs(labels, CAPACITY_TYPE, "spot") then Spot
    else if INSTANCE_TYPE in labels && LabelIs(labels, CAPACITY_TYPE, "on-demand") then OnDemand
    else if INSTANCE_TYPE in labels && Contains(ToLower(labels[INSTANCE_TYPE]), "spot") then Spot
    else if GKE_PREEMPTIBLE in labels then Spot
    else if LabelIs(labels, AZURE_PRIORITY, "spot") then Spot
    else if LabelIs(labels, AZURE_PRIORITY, "regular") then OnDemand
    else Unknown
  }

  /** What ClassifyNode answers: spot rules before on-demand rules before the provider's own. */
  ghost function Classify(config: Config, node: Node): Capacity {
    if Matches(config.spotLabels, node.labels) then Spot
    else if Matches(config.onDemandLabels, node.labels) then OnDemand
    else ByCloudProvider(node.labels)
  }

  ghost function TypeOf(config: Config, nodes: map<string, Node>, name: string): Capacity {
    if name in nodes then Classify(config, nodes[name]) else Unknown
  }

  /** The answer for a batch of names: each distinct non-empty one, unknown if the node is not found. */
  ghost function Answer(config: Config, names: seq<string>, nodes: map<string, Node>): map<string, Capacity> {
    map n | n in names && n != "" :: TypeOf(config, nodes, n)
  }

  /** Exactly the names that are not empty are answered, and what cannot be read is unknown. */
  lemma AnswerCovers(config: Config, names: seq<string>, nodes: map<string, Node>)
    ensures forall n :: n in Answer(config, names, nodes) <==> n in names && |n| > 0
    ensures forall n :: n in Answer(config, names, nodes) ==>
              Answer(config, names, nodes)[n] == if n !in nodes then Unknown else Classify(config, nodes[n])
  {
  }

  /** The cached nodes of one type. */
  ghost function NodesOf(types: map<string, Capacity>, seen: map<string, Node>, kind: Capacity): map<string, Node>
    requires seen.Keys == types.Keys
  {
    map n | n in seen && types[n] == kind :: seen[n]
  }

  /** Retyping one node adds it to its new type's map and takes it out of the others. */
  lemma RetypedNodes(types: map<string, Capacity>, seen: map<string, Node>, node: Node, kind: Capacity, of: Capacity)
    requires seen.Keys == types.Keys
    ensures NodesOf(types[node.name := kind], seen[node.name := node], of)
         == if kind == of then NodesOf(types, seen, of)[node.name := node] else NodesOf(types, seen, of) - {node.name}
  {
  }

  /** getDefaultNodeClassifierConfig */
  const DEFAULTS := Config(
    map[CAPACITY_TYPE := "spot", EKS_CAPACITY_TYPE := "SPOT", INSTANCE_TYPE := "*",
        GKE_PREEMPTIBLE := "true", AZURE_PRIORITY := "spot"],
    map[CAPACITY_TYPE := "on-demand", EKS_CAPACITY_TYPE := "ON_DEMAND", AZURE_PRIORITY := "regular"],
    300_000_000_000)

  /** The default rules take any instance type for spot, even on a node labelled on-demand. */
  lemma DefaultRulesCallTypedNodesSpot(node: Node)
    requires INSTANCE_TYPE in node.labels
    ensures Classify(DEFAULTS, node) == Spot
  {
    assert LabelMatches(DEFAULTS.spotLabels[INSTANCE_TYPE], node.labels, INSTANCE_TYPE);
  }

  /**
   * Exactly when the default rules call a node on-demand: it has no instance type, no label calls it
   * spot, and one calls it on-demand. The provider's own labels never do where the rules do not.
   */
  lemma DefaultRulesCallOnDemand(node: Node)
    ensures Classify(DEFAULTS, node) == OnDemand <==>
              && INSTANCE_TYPE !in node.labels
              && !LabelIs(node.labels, CAPACITY_TYPE, "spot")
              && !LabelIs(node.labels, EKS_CAPACITY_TYPE, "SPOT")
              && !LabelIs(node.labels, GKE_PREEMPTIBLE, "true")
              && !LabelIs(node.labels, AZURE_PRIORITY, "spot")
              && (|| LabelIs(node.labels, CAPACITY_TYPE, "on-demand")
                  || LabelIs(node.labels, EKS_CAPACITY_TYPE, "ON_DEMAND")
                  || LabelIs(node.labels, AZURE_PRIORITY, "regular"))
  {
    SpotRules(node.labels);
    OnDemandRules(node.labels);
  }

  lemma SpotRules(labels: Labels)
    ensures Matches(DEFAULTS.spotLabels, labels) <==>
              || INSTANCE_TYPE in labels
              || LabelIs(labels, CAPACITY_TYPE, "spot")
              || LabelIs(labels, EKS_CAPACITY_TYPE, "SPOT")
              || LabelIs(labels, GKE_PREEMPTIBLE, "true")
              || LabelIs(labels, AZURE_PRIORITY, "spot")
  {
    var rules := DEFAULTS.spotLabels;
    assert LabelMatches(rules[INSTANCE_TYPE], labels, INSTANCE_TYPE) <==> INSTANCE_TYPE in labels;
    assert LabelMatches(rules[CAPACITY_TYPE], labels, CAPACITY_TYPE) <==> LabelIs(labels, CAPACITY_TYPE, "spot");
    assert LabelMatches(rules[EKS_CAPACITY_TYPE], labels, EKS_CAPACITY_TYPE)
      <==> LabelIs(labels, EKS_CAPACITY_TYPE, "SPOT");
    assert LabelMatches(rules[GKE_PREEMPTIBLE], labels, GKE_PREEMPTIBLE) <==> LabelIs(labels, GKE_PREEMPTIBLE, "true");
    assert LabelMatches(rules[AZURE_PRIORITY], labels, AZURE_PRIORITY) <==> LabelIs(labels, AZURE_PRIORITY, "spot");
  }

  lemma OnDemandRules(labels: Labels)
    ensures Matches(DEFAULTS.onDemandLabels, labels) <==>
              || LabelIs(labels, CAPACITY_TYPE, "on-demand")
              || LabelIs(labels, EKS_CAPACITY_TYPE, "ON_DEMAND")
              || LabelIs(labels, AZURE_PRIORITY, "regular")
  {
    var rules := DEFAULTS.onDemandLabels;
    assert LabelMatches(rules[CAPACITY_TYPE], labels, CAPACITY_TYPE) <==> LabelIs(labels, CAPACITY_TYPE, "on-demand");
    assert LabelMatches(rules[EKS_CAPACITY_TYPE], labels, EKS_CAPACITY_TYPE)
      <==> LabelIs(labels, EKS_CAPACITY_TYPE, "ON_DEMAND");
    assert LabelMatches(rules[AZURE_PRIORITY], labels, AZURE_PRIORITY) <==> LabelIs(labels, AZURE_PRIORITY, "regular");
  }

  datatype Listing = Listed(nodes: seq<Node>) | ListFailed

  datatype Lookup = Found(types: map<string, Capacity>) | RefreshFailed

  class NodeClassifierService {
    var config: Config
    var spotNodes: map<string, Node>
    var onDemandNodes: map<string, Node>
    var nodeTypes: map<string, Capacity>
    var lastRefresh: Stamp
    /** The node behind each cached type, which the source keeps only for the known classes. */
    ghost var seen: map<string, Node>

    /** Each cached name is in exactly the map that its type says. */
    ghost predicate Partitioned()
      reads this
    {
      && seen.Keys == nodeTypes.Keys
      && (forall n :: n in seen ==> n != "" && seen[n].name == n)
      && spotNodes == NodesOf(nodeTypes, seen, Spot)
      && onDemandNodes == NodesOf(nodeTypes, seen, OnDemand)
    }

    /** The cached types are what the current configuration says of the cached nodes. */
    ghost predicate Current()
      requires Partitioned()
      reads this
    {
      forall n :: n in nodeTypes ==> nodeTypes[n] == Classify(config, seen[n])
    }

    /** Unless a refresh is due whatever the time, the cached types are the current configuration's. */
    ghost predicate Valid()
      reads this
    {
      && Partitioned()
      && (lastRefresh.At? ==> Current())
    }

    /** The cached nodes are still there, as they were cached. */
    ghost predicate Unchanged(nodes: map<string, Node>)
      reads this
    {
      forall n :: n in seen ==> n in nodes && nodes[n] == seen[n]
    }

    constructor (config: Config)
      ensures Valid() && this.config == config && nodeTypes == map[] && seen == map[]
    {
      this.config := config;
      spotNodes, onDemandNodes, nodeTypes, seen, lastRefresh := map[], map[], map[], map[], Never;
    }

    /** A loop over one set of label rules; Go visits them in any order. */
    method AnyRuleMatches(rules: Labels, labels: Labels) returns (r: bool)
      ensures r <==> Matches(rules, labels)
    {
      var keys := rules.Keys;
      while keys != {}
        invariant keys <= rules.Keys
        invariant forall k :: k in rules && k !in keys ==> !LabelMatches(rules[k], labels, k)
        decreases keys
      {
        var k :| k in keys;
        if LabelMatches(rules[k], labels, k) {
          return true;
        }
        keys := keys - {k};
      }
      return false;
    }

    method ClassifyNode(node: Node) returns (kind: Capacity)
      ensures kind == Classify(config, node)
    {
      var spot := AnyRuleMatches(config.spotLabels, node.labels);
      if spot {
        return Spot;
      }
      var onDemand := AnyRuleMatches(config.onDemandLabels, node.labels);
      if onDemand {
        return OnDemand;
      }
      return ByCloudProvider(node.labels);
    }

    /** storeNodeClassificationLocked */
    method Store(node: Node, kind: Capacity)
      requires Partitioned()
      modifies this`spotNodes, this`onDemandNodes, this`nodeTypes, this`seen
      ensures Partitioned()
      ensures node.name == "" ==> nodeTypes == old(nodeTypes) && seen == old(seen)
      ensures node.name != "" ==> nodeTypes == old(nodeTypes)[node.name := kind] && seen == old(seen)[node.name := node]
    {
      if node.name == "" {
        return;
      }
      RetypedNodes(nodeTypes, seen, node, kind, Spot);
      RetypedNodes(nodeTypes, seen, node, kind, OnDemand);
      match kind {
        case Spot =>
          spotNodes := spotNodes[node.name := node];
          onDemandNodes := onDemandNodes - {node.name};
        case OnDemand =>
          onDemandNodes := onDemandNodes[node.name := node];
          spotNodes := spotNodes - {node.name};
        case Unknown =>
          spotNodes := spotNodes - {node.name};
          onDemandNodes := onDemandNodes - {node.name};
      }
      nodeTypes := nodeTypes[node.name := kind];
      seen := seen[node.name := node];
    }

    predicate Due(now: int)
      reads this`lastRefresh, this`config
    {
      lastRefresh.Never? || now - lastRefresh.time >= config.refreshInterval
    }

    /** One node of a listing, classified and stored. */
    method ClassifyAndStore(node: Node)
      requires Partitioned() && Current()
      modifies this`spotNodes, this`onDemandNodes, this`nodeTypes, this`seen
      ensures Partitioned() && Current()
      ensures seen == if node.name == "" then old(seen) else old(seen)[node.name := node]
    {
      var kind := ClassifyNode(node);
      Store(node, kind);
    }

    /** The cache emptied and filled from a listing; of several nodes of one name the last stays. */
    method Rebuild(nodes: seq<Node>)
      modifies this`spotNodes, this`onDemandNodes, this`nodeTypes, this`seen
      ensures Partitioned() && Current()
      ensures forall n :: n in seen <==> n != "" && exists i :: 0 <= i < |nodes| && nodes[i].name == n
      ensures forall n :: n in seen ==> seen[n] in nodes
    {
      spotNodes, onDemandNodes, nodeTypes, seen := map[], map[], map[], map[];
      for i := 0 to |nodes|
        invariant Partitioned() && Current()
        invariant forall n :: n in seen <==> n != "" && exists k :: 0 <= k < i && nodes[k].name == n
        invariant forall n :: n in seen ==> seen[n] in nodes
      {
        ClassifyAndStore(nodes[i]);
      }
    }

    /** RefreshCache */
    method RefreshCache(now: int, listing: Listing) returns (ok: bool)
      requires Valid()
      modifies this`spotNodes, this`onDemandNodes, this`nodeTypes, this`lastRefresh, this`seen
      ensures Valid()
      ensures ok <==> (old(Due(now)) ==> listing.Listed?)
      ensures ok ==> lastRefresh.At?
      ensures old(lastRefresh.At? && now < lastRefresh.time + config.refreshInterval) ==>
                ok && nodeTypes == old(nodeTypes) && lastRefresh == old(lastRefresh)
      ensures old(lastRefresh.At? ==> now >= lastRefresh.time + config.refreshInterval) ==>
                (ok <==> listing.Listed?) && (ok ==> lastRefresh == At(now))
      ensures !(old(Due(now)) && listing.Listed?) ==>
                nodeTypes == old(nodeTypes) && seen == old(seen) && lastRefresh == old(lastRefresh)
      ensures old(Due(now)) && listing.Listed? ==>
                && lastRefresh == At(now)
                && (forall n :: n in seen <==>
                      n != "" && exists i :: 0 <= i < |listing.nodes| && listing.nodes[i].name == n)
                && (forall n :: n in seen ==> seen[n] in listing.nodes)
    {
      if lastRefresh.At? && now - lastRefresh.time < config.refreshInterval {
        return true;
      }
      if listing.ListFailed? {
        return false;
      }
      Rebuild(listing.nodes);
      lastRefresh := At(now);
      return true;
    }

    /**
     * ClassifyNodesByName: cached types where there are any, single reads for the rest, which are
     * then cached. A name whose read fails, that is one not in `nodes`, is unknown.
     */
    method ClassifyNodesByName(names: seq<string>, now: int, listing: Listing, nodes: map<string, Node>)
      returns (r: Lookup)
      requires Valid()
      requires listing.Listed? ==> forall node :: node in listing.nodes && node.name != "" ==>
                 node.name in nodes && nodes[node.name] == node
      modifies this`spotNodes, this`onDemandNodes, this`nodeTypes, this`lastRefresh, this`seen
      ensures Valid()
      ensures r.RefreshFailed? <==> (exists n :: n in names && n != "") && old(Due(now)) && listing.ListFailed?
      ensures r.RefreshFailed? ==> nodeTypes == old(nodeTypes) && seen == old(seen)
      ensures r.Found? ==> r.types.Keys == set n | n in names && n != ""
      ensures r.Found? && (old(Due(now)) || old(Unchanged(nodes))) ==> r.types == Answer(config, names, nodes)
    {
      var unique := UniqueNames(names);
      assert forall n :: n in names && n != "" ==> n in unique;
      if unique == {} {
        assert Answer(config, names, nodes) == map[];
        return Found(map[]);
      }
      assert exists n :: n in unique;
      var ok := RefreshCache(now, listing);
      if !ok {
        return RefreshFailed;
      }
      ghost var trusted := old(Due(now)) || old(Unchanged(nodes));
      assert trusted ==> Unchanged(nodes);
      var results := LookUp(unique, nodes);
      return Found(results);
    }

    method UniqueNames(names: seq<string>) returns (unique: set<string>)
      ensures unique == set n | n in names && n != ""
    {
      unique := {};
      for i := 0 to |names|
        invariant unique == set n | n in names[..i] && n != ""
      {
        if names[i] != "" {
          unique := unique + {names[i]};
        }
      }
      assert names[..|names|] == names;
    }

    /** The part of ClassifyNodesByName after the refresh. */
    method LookUp(unique: set<string>, nodes: map<string, Node>) returns (results: map<string, Capacity>)
      requires Partitioned() && Current() && "" !in unique
      modifies this`spotNodes, this`onDemandNodes, this`nodeTypes, this`seen
      ensures Partitioned() && Current()
      ensures results.Keys == unique
      ensures old(Unchanged(nodes)) ==>
                results == map n | n in unique :: TypeOf(config, nodes, n)
    {
      var cached, missing := CachedTypes(unique);
      assert Unchanged(nodes) ==> forall n :: n in cached ==> n in nodes && cached[n] == Classify(config, nodes[n]);
      var read := ReadMissing(missing, nodes);
      results := cached + read;
    }

    /** The names found in the cache, and those that are missing from it. */
    method CachedTypes(unique: set<string>) returns (results: map<string, Capacity>, missing: set<string>)
      ensures results == map n | n in unique && n in nodeTypes :: nodeTypes[n]
      ensures missing == unique - nodeTypes.Keys
    {
      results, missing := map[], {};
      var left := unique;
      while left != {}
        invariant left <= unique
        invariant results == map n | n in unique && n !in left && n in nodeTypes :: nodeTypes[n]
        invariant missing == unique - left - nodeTypes.Keys
        decreases left
      {
        var name :| name in left;
        if name in nodeTypes {
          results := results[name := nodeTypes[name]];
        } else {
          missing := missing + {name};
        }
        left := left - {name};
      }
    }

    /** One missing name, read and cached; a name that cannot be read is not cached. */
    method ReadOne(name: string, nodes: map<string, Node>) returns (kind: Capacity)
      requires Partitioned() && Current()
      modifies this`spotNodes, this`onDemandNodes, this`nodeTypes, this`seen
      ensures Partitioned() && Current()
      ensures kind == TypeOf(config, nodes, name)
    {
      if name !in nodes {
        return Unknown;
      }
      kind := ClassifyNode(nodes[name]);
      Store(nodes[name], kind);
    }

    method ReadMissing(missing: set<string>, nodes: map<string, Node>) returns (results: map<string, Capacity>)
      requires Partitioned() && Current()
      modifies this`spotNodes, this`onDemandNodes, this`nodeTypes, this`seen
      ensures Partitioned() && Current()
      ensures results == map n | n in missing :: TypeOf(config, nodes, n)
    {
      results := map[];
      var left := missing;
      while left != {}
        invariant Partitioned() && Current() && left <= missing
        invariant results.Keys == missing - left
        invariant forall n :: n in results ==> results[n] == TypeOf(config, nodes, n)
        decreases left
      {
        var name :| name in left;
        var kind := ReadOne(name, nodes);
        results := results[name := kind];
        left := left - {name};
      }
    }

    /** UpdateConfig forces the next refresh, so types cached under the old rules are never served. */
    method UpdateConfig(config: Config)
      requires Valid()
      modifies this`config, this`lastRefresh
      ensures Valid() && this.config == config && lastRefresh == Never
    {
      this.config := config;
      lastRefresh := Never;
    }
  }
}
