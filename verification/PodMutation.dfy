/**
 * pkg/webhook/mutate.go: the patch that puts a class on a pod's node selector, its application
 * (section 4.1 of RFC 6902), and the reading of a pod's class back from its spec.
 */
module PodMutation {
  import opened Observation
  import opened JsonPointer

  const CAPACITY_TYPE_LABEL := "karpenter.sh/capacity-type"

  const SPEC := "spec"
  const NODE_SELECTOR := "nodeSelector"

  type Labels = map<string, string>

  datatype Json =
    | JNull
    | JScalar(literal: string)
    | JString(text: string)
    | JArray(items: seq<Json>)
    | JObject(members: map<string, Json>)

  /** spec.nodeSelector as it arrives: a missing one and a null one are both nil in Go. */
  datatype NodeSelector = Absent | Null | Given(labels: Labels)

  datatype Expression = Expression(key: string, values: seq<string>)

  datatype PreferredTerm = PreferredTerm(weight: int, expressions: seq<Expression>)

  /** Node affinity: required terms as lists of expressions, and preferred terms; nil is no terms. */
  datatype NodeAffinity = NodeAffinity(required: seq<seq<Expression>>, preferred: seq<PreferredTerm>)

  /** A pod: what the webhook interprets, and every other member of the object and of its spec. */
  datatype PodObject = PodObject(
    selector: NodeSelector,
    affinity: NodeAffinity,
    otherSpec: map<string, Json>,
    other: map<string, Json>)
  {
    ghost predicate Valid() {
      NODE_SELECTOR !in otherSpec && SPEC !in other
    }
  }

  function LabelsJson(labels: Labels): Json {
    JObject(map k | k in labels :: JString(labels[k]))
  }

  function SpecMembers(pod: PodObject): map<string, Json> {
    match pod.selector
    case Absent => pod.otherSpec
    case Null => pod.otherSpec[NODE_SELECTOR := JNull]
    case Given(labels) => pod.otherSpec[NODE_SELECTOR := LabelsJson(labels)]
  }

  function ToJson(pod: PodObject): Json {
    JObject(pod.other[SPEC := JObject(SpecMembers(pod))])
  }

  // The label configuration.

  /** Of the classifier configuration: the match labels of its spot and on-demand selectors. */
  datatype ClassifierConfig = Defaults | Configured(spotLabels: seq<Labels>, onDemandLabels: seq<Labels>)

  datatype LabelConfig = LabelConfig(key: string, spotValue: string, onDemandValue: string)
  {
    function Value(kind: Capacity): string {
      if kind == Spot then spotValue else onDemandValue
    }
  }

  function SpotSelector(config: ClassifierConfig): Labels {
    if config.Configured? && |config.spotLabels| > 0 then config.spotLabels[0] else map[]
  }

  function OnDemandSelector(config: ClassifierConfig): Labels {
    if config.Configured? && |config.onDemandLabels| > 0 then config.onDemandLabels[0] else map[]
  }

  /** What getCapacityTypeLabelConfig may answer: with several spot labels, any of them. */
  ghost predicate MayAnswer(config: ClassifierConfig, lc: LabelConfig) {
    var spot, onDemand := SpotSelector(config), OnDemandSelector(config);
    && (if spot == map[] then lc.key == CAPACITY_TYPE_LABEL && lc.spotValue == "spot"
        else lc.key in spot && lc.spotValue == spot[lc.key])
    && lc.onDemandValue == if lc.key in onDemand then onDemand[lc.key] else "on-demand"
  }

  /** getCapacityTypeLabelConfig; Go's map iteration picks the spot label. */
  method GetCapacityTypeLabelConfig(config: ClassifierConfig) returns (lc: LabelConfig)
    ensures MayAnswer(config, lc)
  {
    lc := LabelConfig(CAPACITY_TYPE_LABEL, "spot", "on-demand");
    if config.Defaults? {
      return;
    }
    if |config.spotLabels| > 0 {
      var selector := config.spotLabels[0];
      if selector.Keys != {} {
        var k :| k in selector;
        lc := lc.(key := k, spotValue := selector[k]);
      }
    }
    if |config.onDemandLabels| > 0 {
      var selector := config.onDemandLabels[0];
      if lc.key in selector {
        lc := lc.(onDemandValue := selector[lc.key]);
      }
    }
  }

  /** With one label in each selector, as usual, the answer is that label with its two values. */
  lemma OneLabelAnswers(key: string, spot: string, onDemand: string, lc: LabelConfig)
    ensures MayAnswer(Configured([map[key := spot]], [map[key := onDemand]]), lc) <==>
              lc == LabelConfig(key, spot, onDemand)
    ensures MayAnswer(Configured([map[key := spot]], []), lc) <==> lc == LabelConfig(key, spot, "on-demand")
    ensures MayAnswer(Defaults, lc) <==> lc == LabelConfig("karpenter.sh/capacity-type", "spot", "on-demand")
    ensures MayAnswer(Configured([], []), lc) <==> MayAnswer(Defaults, lc)
  {
    assert key in map[key := spot];
  }

  // The patch.

  datatype Patch = Add(path: string, value: Json)

  /** "/spec/nodeSelector" */
  const SELECTOR_PATH := "/" + SPEC + "/" + NODE_SELECTOR

  /** generateNodeSelectorPatches, once the class is chosen. */
  function NodeSelectorPatch(selector: NodeSelector, kind: Capacity, lc: LabelConfig): Patch {
    if selector.Given? then Add(SELECTOR_PATH + "/" + Escape(lc.key), JString(lc.Value(kind)))
    else Add(SELECTOR_PATH, LabelsJson(map[lc.key := lc.Value(kind)]))
  }

  /** The parts of a string between its slashes. */
  function SplitSlashes(s: string): (parts: seq<string>)
    ensures |parts| > 0
  {
    if s == "" then [""]
    else
      var rest := SplitSlashes(s[1..]);
      if s[0] == '/' then [""] + rest else [[s[0]] + rest[0]] + rest[1..]
  }

  datatype Option<T> = None | Some(value: T)

  /** The reference tokens of a JSON Pointer, section 3 and 4 of RFC 6901. */
  function Tokens(path: string): Option<seq<string>> {
    if path == "" then Some([])
    else if path[0] != '/' then None
    else Some(DecodeAll(SplitSlashes(path[1..])))
  }

  function DecodeAll(parts: seq<string>): seq<string> {
    seq(|parts|, i requires 0 <= i < |parts| => Decode(parts[i]))
  }

  /**
   * The add operation on the objects along a path. Paths into arrays, which this webhook never
   * writes, are refused.
   */
  function AddAt(document: Json, tokens: seq<string>, value: Json): Option<Json>
    decreases |tokens|
  {
    if tokens == [] then Some(value)
    else if !document.JObject? then None
    else if |tokens| == 1 then Some(JObject(document.members[tokens[0] := value]))
    else if tokens[0] !in document.members then None
    else match AddAt(document.members[tokens[0]], tokens[1..], value)
      case None => None
      case Some(child) => Some(JObject(document.members[tokens[0] := child]))
  }

  function Apply(patch: Patch, document: Json): Option<Json> {
    match Tokens(patch.path)
    case None => None
    case Some(tokens) => AddAt(document, tokens, patch.value)
  }

  /** The pod with one node selector label set, and nothing else touched. */
  function Labelled(pod: PodObject, key: string, value: string): PodObject {
    pod.(selector := Given((if pod.selector.Given? then pod.selector.labels else map[])[key := value]))
  }

  lemma {:induction false} SplitAtSlash(a: string, b: string)
    requires '/' !in a
    ensures SplitSlashes(a + "/" + b) == [a] + SplitSlashes(b)
    ensures SplitSlashes(a) == [a]
  {
    if a == "" {
      assert a + "/" + b == "/" + b;
      assert ("/" + b)[1..] == b;
    } else {
      assert a == [a[0]] + a[1..];
      assert (a + "/" + b)[1..] == a[1..] + "/" + b;
      SplitAtSlash(a[1..], b);
    }
  }

  lemma {:induction false} DecodePlain(s: string)
    requires '~' !in s
    ensures Decode(s) == s
  {
    if s != "" {
      assert s[0] in s;
      DecodePlain(s[1..]);
    }
  }

  lemma SplitTwo(a: string, b: string)
    requires '/' !in a && '/' !in b
    ensures SplitSlashes(a + "/" + b) == [a, b]
  {
    SplitAtSlash(a, b);
    SplitAtSlash(b, "");
  }

  lemma SplitThree(a: string, b: string, t: string)
    requires '/' !in a && '/' !in b && '/' !in t
    ensures SplitSlashes(a + "/" + b + "/" + t) == [a, b, t]
  {
    assert a + "/" + b + "/" + t == a + "/" + (b + "/" + t);
    SplitAtSlash(a, b + "/" + t);
    SplitTwo(b, t);
  }

  lemma TokensFrom(path: string, rest: string)
    requires path == "/" + rest
    ensures Tokens(path) == Some(DecodeAll(SplitSlashes(rest)))
  {
    assert path[1..] == rest;
  }

  lemma TokensOfTwo(a: string, b: string)
    requires '/' !in a && '/' !in b
    ensures Tokens("/" + a + "/" + b) == Some([Decode(a), Decode(b)])
  {
    TokensFrom("/" + a + "/" + b, a + "/" + b);
    SplitTwo(a, b);
    assert DecodeAll([a, b]) == [Decode(a), Decode(b)];
  }

  lemma DecodeThree(a: string, b: string, t: string)
    ensures DecodeAll([a, b, t]) == [Decode(a), Decode(b), Decode(t)]
  {
  }

  lemma TokensOfThree(a: string, b: string, t: string)
    requires '/' !in a && '/' !in b && '/' !in t
    ensures Tokens("/" + a + "/" + b + "/" + t) == Some([Decode(a), Decode(b), Decode(t)])
  {
    var rest := a + "/" + b + "/" + t;
    var path := "/" + a + "/" + b + "/" + t;
    assert path == "/" + rest;
    TokensFrom(path, rest);
    SplitThree(a, b, t);
    DecodeThree(a, b, t);
  }

  lemma TokensUnderPlain(a: string, b: string, key: string)
    requires '/' !in a && '~' !in a && '/' !in b && '~' !in b
    ensures Tokens("/" + a + "/" + b) == Some([a, b])
    ensures Tokens("/" + a + "/" + b + "/" + Escape(key)) == Some([a, b, key])
  {
    EscapeRoundTrips(key);
    WellFormedHasNoSlash(Escape(key));
    UnescapeIsDecode(Escape(key));
    DecodePlain(a);
    DecodePlain(b);
    TokensOfTwo(a, b);
    TokensOfThree(a, b, Escape(key));
  }

  /** Whatever characters the label key has, the path names it as the third token. */
  lemma PathTokens(key: string)
    ensures Tokens(SELECTOR_PATH) == Some(["spec", "nodeSelector"]) && SELECTOR_PATH == "/spec/nodeSelector"
    ensures Tokens(SELECTOR_PATH + "/" + Escape(key)) == Some(["spec", "nodeSelector", key])
  {
    TokensUnderPlain(SPEC, NODE_SELECTOR, key);
  }

  lemma AddMember(m: map<string, Json>, s: map<string, Json>, a: string, b: string, value: Json)
    requires a in m && m[a] == JObject(s)
    ensures AddAt(JObject(m), [a, b], value) == Some(JObject(m[a := JObject(s[b := value])]))
  {
    assert [a, b][1..] == [b];
    assert AddAt(JObject(s), [b], value) == Some(JObject(s[b := value]));
  }

  lemma AddNestedMember(
      m: map<string, Json>, s: map<string, Json>, n: map<string, Json>, a: string, b: string, c: string, value: Json)
    requires a in m && m[a] == JObject(s) && b in s && s[b] == JObject(n)
    ensures AddAt(JObject(m), [a, b, c], value) == Some(JObject(m[a := JObject(s[b := JObject(n[c := value])])]))
  {
    assert [a, b, c][1..] == [b, c];
    AddMember(s, n, b, c, value);
  }

  lemma LabelledSpec(pod: PodObject, key: string, value: string)
    requires pod.Valid()
    ensures var after := SpecMembers(Labelled(pod, key, value));
            if pod.selector.Given? then
              var labels := LabelsJson(pod.selector.labels);
              && NODE_SELECTOR in SpecMembers(pod) && SpecMembers(pod)[NODE_SELECTOR] == labels
              && after == SpecMembers(pod)[NODE_SELECTOR := JObject(labels.members[key := JString(value)])]
            else after == SpecMembers(pod)[NODE_SELECTOR := LabelsJson(map[key := value])]
  {
    if pod.selector.Given? {
      var labels := pod.selector.labels;
      assert LabelsJson(labels).members[key := JString(value)] == LabelsJson(labels[key := value]).members;
    } else {
      assert map[][key := value] == map[key := value];
    }
  }

  lemma PatchMembers(pod: PodObject, kind: Capacity, lc: LabelConfig)
    requires pod.Valid()
    ensures Apply(NodeSelectorPatch(pod.selector, kind, lc), ToJson(pod))
         == Some(JObject(pod.other[SPEC := JObject(SpecMembers(Labelled(pod, lc.key, lc.Value(kind))))]))
  {
    var value := lc.Value(kind);
    var spec := SpecMembers(pod);
    var members := pod.other[SPEC := JObject(spec)];
    PathTokens(lc.key);
    LabelledSpec(pod, lc.key, value);
    if pod.selector.Given? {
      var labels := LabelsJson(pod.selector.labels).members;
      AddNestedMember(members, spec, labels, SPEC, NODE_SELECTOR, lc.key, JString(value));
    } else {
      AddMember(members, spec, SPEC, NODE_SELECTOR, LabelsJson(map[lc.key := value]));
    }
    var after := JObject(SpecMembers(Labelled(pod, lc.key, value)));
    assert members[SPEC := after] == pod.other[SPEC := after];
  }

  /**
   * Applying the patch to any pod, with or without a node selector and whatever characters the
   * label key has, gives that pod with the one label set: every other label, spec member and
   * object member stays as it was.
   */
  lemma PatchSetsOneLabel(pod: PodObject, kind: Capacity, lc: LabelConfig)
    requires pod.Valid()
    ensures Apply(NodeSelectorPatch(pod.selector, kind, lc), ToJson(pod))
         == Some(ToJson(Labelled(pod, lc.key, lc.Value(kind))))
  {
    PatchMembers(pod, kind, lc);
  }

  // Reading a pod's class.

  /** The class an expression asks for, if it speaks about the capacity label. */
  function ExpressionClass(e: Expression, lc: LabelConfig): Option<Capacity> {
    if e.key == lc.key && |e.values| > 0 then Some(if e.values[0] == lc.spotValue then Spot else OnDemand) else None
  }

  /** The last class a list of expressions asks for. */
  function LastClass(es: seq<Expression>, lc: LabelConfig): Option<Capacity> {
    if es == [] then None
    else
      var last := ExpressionClass(es[|es| - 1], lc);
      if last.Some? then last else LastClass(es[..|es| - 1], lc)
  }

  function FirstClass(es: seq<Expression>, lc: LabelConfig): Option<Capacity> {
    if es == [] then None
    else if ExpressionClass(es[0], lc).Some? then ExpressionClass(es[0], lc)
    else FirstClass(es[1..], lc)
  }

  /** getCapacityTypeFromRequiredAffinity: the first expression of any term that speaks. */
  function RequiredClass(terms: seq<seq<Expression>>, lc: LabelConfig): Option<Capacity> {
    if terms == [] then None
    else if FirstClass(terms[0], lc).Some? then FirstClass(terms[0], lc)
    else RequiredClass(terms[1..], lc)
  }

  /** What each preferred term says about the capacity label. */
  ghost function Said(lc: LabelConfig): PreferredTerm -> Option<Capacity> {
    (t: PreferredTerm) => if t.weight > 0 then LastClass(t.expressions, lc) else None
  }

  /** The heaviest of the first `n` terms that says something; of equals, the first. */
  ghost predicate Heaviest(terms: seq<PreferredTerm>, n: nat, i: nat, said: PreferredTerm -> Option<Capacity>)
    requires i < n <= |terms|
  {
    && said(terms[i]).Some?
    && (forall j :: 0 <= j < n && said(terms[j]).Some? ==> terms[j].weight <= terms[i].weight)
    && (forall j :: 0 <= j < i && said(terms[j]).Some? ==> terms[j].weight < terms[i].weight)
  }

  /** What getCapacityTypeFromPreferredAffinity answers: the word of the heaviest term, if any. */
  ghost predicate Prefers(terms: seq<PreferredTerm>, lc: LabelConfig, r: Option<Capacity>) {
    if r.None? then forall j :: 0 <= j < |terms| ==> Said(lc)(terms[j]).None?
    else exists i :: 0 <= i < |terms| && Heaviest(terms, |terms|, i, Said(lc)) && Said(lc)(terms[i]) == r
  }

  /** The loop over one preferred term's expressions. */
  method LastSpoken(es: seq<Expression>, lc: LabelConfig) returns (found: Option<Capacity>)
    ensures found == LastClass(es, lc)
  {
    found := None;
    for m := 0 to |es|
      invariant found == LastClass(es[..m], lc)
    {
      assert es[..m + 1][..m] == es[..m];
      if es[m].key == lc.key && |es[m].values| > 0 {
        found := Some(if es[m].values[0] == lc.spotValue then Spot else OnDemand);
      }
    }
    assert es[..|es|] == es;
  }

  /**
   * getCapacityTypeFromPreferredAffinity: the class of the heaviest term that speaks about the
   * label, the last of its expressions deciding within it.
   */
  method PreferredClass(terms: seq<PreferredTerm>, lc: LabelConfig) returns (r: Option<Capacity>)
    ensures Prefers(terms, lc, r)
  {
    var highest := 0;
    r := None;
    ghost var best := 0;
    ghost var said := Said(lc);
    for n := 0 to |terms|
      invariant highest >= 0
      invariant r.None? ==> highest == 0 && forall j :: 0 <= j < n ==> said(terms[j]).None?
      invariant r.Some? ==> best < n && terms[best].weight == highest && r == said(terms[best])
                            && Heaviest(terms, n, best, said)
    {
      if terms[n].weight > highest {
        var found := LastSpoken(terms[n].expressions, lc);
        assert found == said(terms[n]);
        if found.Some? {
          highest := terms[n].weight;
          r := found;
          best := n;
        }
      } else {
        assert said(terms[n]).Some? ==> r.Some?;
      }
    }
  }

  /**
   * getPodCapacityType: node selector, then required and preferred affinity, then on-demand. Each of
   * the three asks for the label by itself, so each may get its own answer.
   */
  ghost predicate ReadsAs(
      pod: PodObject, bySelector: LabelConfig, byRequired: LabelConfig, byPreferred: LabelConfig, kind: Capacity)
  {
    if pod.selector.Given? && bySelector.key in pod.selector.labels then
      kind == if pod.selector.labels[bySelector.key] == bySelector.spotValue then Spot else OnDemand
    else if RequiredClass(pod.affinity.required, byRequired).Some? then
      kind == RequiredClass(pod.affinity.required, byRequired).value
    else exists r :: Prefers(pod.affinity.preferred, byPreferred, r) && kind == if r.Some? then r.value else OnDemand
  }

  /** The classes that may be read from a pod under a configuration. */
  ghost predicate MayRead(config: ClassifierConfig, pod: PodObject, kind: Capacity) {
    exists a, b, c ::
      MayAnswer(config, a) && MayAnswer(config, b) && MayAnswer(config, c) && ReadsAs(pod, a, b, c, kind)
  }

  method GetPodCapacityType(pod: PodObject, config: ClassifierConfig) returns (kind: Capacity)
    ensures MayRead(config, pod, kind)
    ensures kind != Unknown
  {
    var bySelector := GetCapacityTypeLabelConfig(config);
    if pod.selector.Given? && bySelector.key in pod.selector.labels {
      kind := if pod.selector.labels[bySelector.key] == bySelector.spotValue then Spot else OnDemand;
      assert ReadsAs(pod, bySelector, bySelector, bySelector, kind);
      return;
    }
    var byRequired := GetCapacityTypeLabelConfig(config);
    var required := RequiredClass(pod.affinity.required, byRequired);
    if required.Some? {
      RequiredIsKnown(pod.affinity.required, byRequired);
      kind := required.value;
      assert ReadsAs(pod, bySelector, byRequired, byRequired, kind);
      return;
    }
    var byPreferred := GetCapacityTypeLabelConfig(config);
    var preferred := PreferredClass(pod.affinity.preferred, byPreferred);
    if preferred.Some? {
      ghost var i :| 0 <= i < |pod.affinity.preferred| && Said(byPreferred)(pod.affinity.preferred[i]) == preferred;
      LastIsKnown(pod.affinity.preferred[i].expressions, byPreferred);
      kind := preferred.value;
    } else {
      kind := OnDemand;
    }
    assert ReadsAs(pod, bySelector, byRequired, byPreferred, kind);
  }

  /** An expression that says nothing about the capacity label. */
  predicate Silent(e: Expression, key: string) {
    e.key != key || e.values == []
  }

  /** The first expression that speaks decides, whatever the class it names. */
  lemma {:induction false} FirstSpeakerDecides(
      before: seq<Expression>, e: Expression, after: seq<Expression>, lc: LabelConfig)
    requires forall s :: s in before ==> Silent(s, lc.key)
    requires !Silent(e, lc.key)
    ensures FirstClass(before + [e] + after, lc) == Some(if e.values[0] == lc.spotValue then Spot else OnDemand)
    decreases |before|
  {
    var all := before + [e] + after;
    if before != [] {
      assert all[0] == before[0] && Silent(before[0], lc.key);
      assert all[1..] == before[1..] + [e] + after;
      FirstSpeakerDecides(before[1..], e, after, lc);
    }
  }

  lemma {:induction false} SilentTermsSayNothing(es: seq<Expression>, lc: LabelConfig)
    requires forall s :: s in es ==> Silent(s, lc.key)
    ensures FirstClass(es, lc) == None && LastClass(es, lc) == None
    decreases |es|
  {
    if es != [] {
      assert Silent(es[0], lc.key) && Silent(es[|es| - 1], lc.key);
      FirstFew(es, lc);
      SilentTermsSayNothing(es[1..], lc);
    }
  }

  lemma {:induction false} FirstFew(es: seq<Expression>, lc: LabelConfig)
    requires forall s :: s in es ==> Silent(s, lc.key)
    ensures LastClass(es, lc) == None
    decreases |es|
  {
    if es != [] {
      assert Silent(es[|es| - 1], lc.key);
      FirstFew(es[..|es| - 1], lc);
    }
  }

  /** Across the required terms too: the first that holds a speaking expression decides by its first. */
  lemma {:induction false} FirstSpeakingTermDecides(
      silent: seq<seq<Expression>>, before: seq<Expression>, e: Expression, after: seq<Expression>,
      later: seq<seq<Expression>>, lc: LabelConfig)
    requires forall t, s :: t in silent && s in t ==> Silent(s, lc.key)
    requires forall s :: s in before ==> Silent(s, lc.key)
    requires !Silent(e, lc.key)
    ensures RequiredClass(silent + [before + [e] + after] + later, lc)
         == Some(if e.values[0] == lc.spotValue then Spot else OnDemand)
    decreases |silent|
  {
    var all := silent + [before + [e] + after] + later;
    if silent == [] {
      assert all[0] == before + [e] + after;
      FirstSpeakerDecides(before, e, after, lc);
    } else {
      assert all[0] == silent[0] && all[1..] == silent[1..] + [before + [e] + after] + later;
      SilentTermsSayNothing(silent[0], lc);
      FirstSpeakingTermDecides(silent[1..], before, e, after, later, lc);
    }
  }

  /** Within a preferred term the last expression that speaks decides. */
  lemma {:induction false} LastSpeakerDecides(
      before: seq<Expression>, e: Expression, after: seq<Expression>, lc: LabelConfig)
    requires forall s :: s in after ==> Silent(s, lc.key)
    requires !Silent(e, lc.key)
    ensures LastClass(before + [e] + after, lc) == Some(if e.values[0] == lc.spotValue then Spot else OnDemand)
    decreases |after|
  {
    var all := before + [e] + after;
    if after == [] {
      assert all[|all| - 1] == e;
    } else {
      assert all[|all| - 1] == after[|after| - 1] && Silent(after[|after| - 1], lc.key);
      assert all[..|all| - 1] == before + [e] + after[..|after| - 1];
      LastSpeakerDecides(before, e, after[..|after| - 1], lc);
    }
  }

  lemma SinglePreference(weight: int, e: Expression, lc: LabelConfig)
    requires weight > 0 && !Silent(e, lc.key)
    ensures forall r :: Prefers([PreferredTerm(weight, [e])], lc, r) ==>
              r == Some(if e.values[0] == lc.spotValue then Spot else OnDemand)
  {
    var terms := [PreferredTerm(weight, [e])];
    assert [] + [e] + [] == [e];
    LastSpeakerDecides([], e, [], lc);
    assert Said(lc)(terms[0]) == LastClass([e], lc);
  }

  const KARPENTER := "karpenter.sh/capacity-type"

  predicate Selects(pod: PodObject) {
    pod.selector.Given? && KARPENTER in pod.selector.labels
  }

  /**
   * What is read under the built-in label: the node selector's word before the required terms', those
   * before any preferred term's, and on-demand if nobody speaks.
   */
  lemma BuiltInLabelIsRead(pod: PodObject, value: string, weight: int, kind: Capacity)
    requires MayRead(Defaults, pod, kind)
    ensures Selects(pod) ==> kind == if pod.selector.labels[KARPENTER] == "spot" then Spot else OnDemand
    ensures !Selects(pod) && pod.affinity == NodeAffinity([], []) ==> kind == OnDemand
    ensures !Selects(pod) && pod.affinity.required == [[Expression(KARPENTER, [value])]] ==>
              kind == if value == "spot" then Spot else OnDemand
    ensures !Selects(pod) && weight > 0
            && pod.affinity == NodeAffinity([], [PreferredTerm(weight, [Expression(KARPENTER, [value])])]) ==>
              kind == if value == "spot" then Spot else OnDemand
  {
    var lc, e := LabelConfig(KARPENTER, "spot", "on-demand"), Expression(KARPENTER, [value]);
    assert [] + [e] + [] == [e] && [] + [[e]] + [] == [[e]];
    FirstSpeakingTermDecides([], [], e, [], [], lc);
    if weight > 0 {
      SinglePreference(weight, e, lc);
    }
  }

  lemma {:induction false} LastIsKnown(es: seq<Expression>, lc: LabelConfig)
    ensures LastClass(es, lc).Some? ==> LastClass(es, lc).value != Unknown
  {
    if es != [] {
      LastIsKnown(es[..|es| - 1], lc);
    }
  }

  lemma {:induction false} FirstIsKnown(es: seq<Expression>, lc: LabelConfig)
    ensures FirstClass(es, lc).Some? ==> FirstClass(es, lc).value != Unknown
  {
    if es != [] {
      FirstIsKnown(es[1..], lc);
    }
  }

  lemma {:induction false} RequiredIsKnown(terms: seq<seq<Expression>>, lc: LabelConfig)
    ensures RequiredClass(terms, lc).Some? ==> RequiredClass(terms, lc).value != Unknown
  {
    if terms != [] {
      FirstIsKnown(terms[0], lc);
      RequiredIsKnown(terms[1..], lc);
    }
  }

  /** The class the webhook chose is the class it reads back, whatever labels either step picks. */
  ghost predicate ReadsBack(config: ClassifierConfig) {
    forall pod: PodObject, kind, written, seen ::
      MayAnswer(config, written) && kind != Unknown
      && MayRead(config, Labelled(pod, written.key, written.Value(kind)), seen)
      ==> seen == kind
  }

  /** Under which configurations two calls always agree on one label whose values differ. */
  ghost predicate OneDistinctLabel(config: ClassifierConfig) {
    && (forall a, b :: a in SpotSelector(config) && b in SpotSelector(config) ==> a == b)
    && (forall lc :: MayAnswer(config, lc) ==> lc.spotValue != lc.onDemandValue)
  }

  /**
   * Read-back holds for every pod and every class exactly when the spot selector has at most one
   * label and that label's spot and on-demand values differ.
   */
  lemma ReadBackIffOneDistinctLabel(config: ClassifierConfig)
    ensures ReadsBack(config) <==> OneDistinctLabel(config)
  {
    if !OneDistinctLabel(config) {
      ReadBackFails(config);
    }
  }

  lemma SomeAnswer(config: ClassifierConfig, key: string) returns (lc: LabelConfig)
    requires key in SpotSelector(config)
    ensures MayAnswer(config, lc) && lc.key == key
  {
    var onDemand := OnDemandSelector(config);
    lc := LabelConfig(key, SpotSelector(config)[key], if key in onDemand then onDemand[key] else "on-demand");
  }

  lemma ReadBackFails(config: ClassifierConfig)
    requires !OneDistinctLabel(config)
    ensures !ReadsBack(config)
  {
    var bare := PodObject(Absent, NodeAffinity([], []), map[], map[]);
    if lc :| MayAnswer(config, lc) && lc.spotValue == lc.onDemandValue {
      assert ReadsAs(Labelled(bare, lc.key, lc.Value(OnDemand)), lc, lc, lc, Spot);
      assert MayRead(config, Labelled(bare, lc.key, lc.Value(OnDemand)), Spot);
    } else {
      var a, b :| a in SpotSelector(config) && b in SpotSelector(config) && a != b;
      var written := SomeAnswer(config, a);
      var read := SomeAnswer(config, b);
      var pod := bare.(selector := Given(map[b := read.spotValue]));
      assert ReadsAs(Labelled(pod, a, written.Value(OnDemand)), read, read, read, Spot);
      assert MayRead(config, Labelled(pod, a, written.Value(OnDemand)), Spot);
    }
  }
}
