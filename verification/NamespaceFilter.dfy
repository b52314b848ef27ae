/**
 * pkg/controllers/namespace_filter.go: the filter stages and the cache of their decisions. Regular
 * expressions and the API server's namespaces are given by an environment; each operation is atomic.
 */
module NamespaceFilter {
  import opened GoInt

  type Labels = map<string, string>

  datatype Config = Config(
    includeNamespaces: seq<string>,
    excludeNamespaces: seq<string>,
    includePatterns: seq<string>,
    excludePatterns: seq<string>,
    requiredLabels: Labels,
    forbiddenLabels: Labels,
    forbiddenAnnotations: Labels,
    includeSystemNamespaces: bool,
    systemNamespaces: seq<string>,
    cacheEnabled: bool,
    cacheSize: int)

  datatype Metadata = Metadata(labels: Labels, annotations: Labels)

  /**
   * What the filter asks of its surroundings: whether a pattern compiles and what it matches, and
   * the namespaces that a lookup finds (none at all without a client).
   */
  datatype Env = Env(
    compiles: string -> bool,
    matches: (string, string) -> bool,
    hasClient: bool,
    namespaces: map<string, Metadata>)

  /** A decision, without its timestamp and the tenant written into it later. */
  datatype FilterResult = FilterResult(allowed: bool, reason: string, matchedRule: string)

  predicate IsSystem(config: Config, namespace: string) {
    || namespace in config.systemNamespaces
    || "kube-" <= namespace || "openshift-" <= namespace || "istio-" <= namespace
  }

  ghost predicate MatchesAny(env: Env, patterns: seq<string>, namespace: string) {
    exists i :: 0 <= i < |patterns| && env.matches(patterns[i], namespace)
  }

  predicate HasAll(required: Labels, actual: Labels) {
    forall k :: k in required ==> k in actual && actual[k] == required[k]
  }

  predicate HasAny(forbidden: Labels, actual: Labels) {
    exists k :: k in forbidden && k in actual && actual[k] == forbidden[k]
  }

  predicate MetadataAllows(config: Config, m: Metadata) {
    && HasAll(config.requiredLabels, m.labels)
    && !HasAny(config.forbiddenLabels, m.labels)
    && !HasAny(config.forbiddenAnnotations, m.annotations)
  }

  predicate Known(env: Env, namespace: string) {
    env.hasClient && namespace in env.namespaces
  }

  /** The policy the stages add up to. */
  ghost predicate Permits(config: Config, env: Env, namespace: string) {
    && (IsSystem(config, namespace) ==> config.includeSystemNamespaces)
    && namespace !in config.excludeNamespaces
    && !MatchesAny(env, config.excludePatterns, namespace)
    && (config.includeNamespaces != [] ==> namespace in config.includeNamespaces)
    && (config.includePatterns != [] ==> MatchesAny(env, config.includePatterns, namespace))
    && (Known(env, namespace) ==> MetadataAllows(config, env.namespaces[namespace]))
  }

  /** The first pattern that matches; the number of patterns if none does. */
  function FirstMatch(env: Env, patterns: seq<string>, namespace: string): (n: nat)
    ensures n <= |patterns|
    ensures n < |patterns| ==> env.matches(patterns[n], namespace)
    ensures forall i :: 0 <= i < n ==> !env.matches(patterns[i], namespace)
  {
    if patterns == [] then 0
    else if env.matches(patterns[0], namespace) then 0
    else 1 + FirstMatch(env, patterns[1..], namespace)
  }

  function Blocked(reason: string, rule: string): FilterResult {
    FilterResult(false, reason, rule)
  }

  /** The rule that the inclusion stages record when they let a namespace through. */
  function InclusionRule(config: Config, env: Env, namespace: string): string {
    var p := FirstMatch(env, config.includePatterns, namespace);
    if p < |config.includePatterns| then "include_pattern:" + config.includePatterns[p]
    else if namespace in config.includeNamespaces then "include_namespace:" + namespace
    else ""
  }

  /** The metadata stage and what follows it, for a namespace that the inclusion stages let through. */
  function MetadataStage(config: Config, env: Env, namespace: string, rule: string): FilterResult {
    if Known(env, namespace) && !HasAll(config.requiredLabels, env.namespaces[namespace].labels) then
      Blocked("missing required labels", "required_labels_check")
    else if Known(env, namespace) && HasAny(config.forbiddenLabels, env.namespaces[namespace].labels) then
      Blocked("has forbidden labels", "forbidden_labels_check")
    else if Known(env, namespace) && HasAny(config.forbiddenAnnotations, env.namespaces[namespace].annotations) then
      Blocked("has forbidden annotations", "forbidden_annotations_check")
    else
      FilterResult(true, "passed all filters",
                   if env.hasClient && namespace !in env.namespaces then "namespace_not_found" else rule)
  }

  /** The decision that a configuration stands for: the first stage that blocks decides. */
  function Filter(config: Config, env: Env, namespace: string): FilterResult {
    var excluded := FirstMatch(env, config.excludePatterns, namespace);
    var included := FirstMatch(env, config.includePatterns, namespace);
    if IsSystem(config, namespace) && !config.includeSystemNamespaces then
      Blocked("system namespace excluded", "system_namespace_exclusion")
    else if namespace in config.excludeNamespaces then
      Blocked("explicitly excluded", "exclude_namespace:" + namespace)
    else if excluded < |config.excludePatterns| then
      Blocked("matched exclude pattern", "exclude_pattern:" + config.excludePatterns[excluded])
    else if config.includeNamespaces != [] && namespace !in config.includeNamespaces then
      Blocked("not in include list", "include_namespace_check")
    else if config.includePatterns != [] && included == |config.includePatterns| then
      Blocked("no include pattern matched", "include_pattern_check")
    else MetadataStage(config, env, namespace, InclusionRule(config, env, namespace))
  }

  /** The stages, in whatever order they block, add up to the policy. */
  lemma FilterAllowsExactlyThePermitted(config: Config, env: Env, namespace: string)
    ensures Filter(config, env, namespace).allowed <==> Permits(config, env, namespace)
  {
    FirstMatchFinds(env, config.excludePatterns, namespace);
    FirstMatchFinds(env, config.includePatterns, namespace);
    MetadataStageAllows(config, env, namespace, InclusionRule(config, env, namespace));
  }

  lemma MetadataStageAllows(config: Config, env: Env, namespace: string, rule: string)
    ensures MetadataStage(config, env, namespace, rule).allowed
      <==> (Known(env, namespace) ==> MetadataAllows(config, env.namespaces[namespace]))
  {
  }

  lemma FirstMatchFinds(env: Env, patterns: seq<string>, namespace: string)
    ensures MatchesAny(env, patterns, namespace) <==> FirstMatch(env, patterns, namespace) < |patterns|
  {
  }

  predicate StartsWith(s: string, prefix: string) {
    |s| >= |prefix| && forall i :: 0 <= i < |prefix| ==> s[i] == prefix[i]
  }

  /** Which namespaces are turned away as the system's own, unless those are included. */
  lemma SystemNamespacesBlocked(config: Config, env: Env, namespace: string)
    ensures Filter(config, env, namespace).reason == "system namespace excluded" <==>
              && !config.includeSystemNamespaces
              && (|| (exists i :: 0 <= i < |config.systemNamespaces| && config.systemNamespaces[i] == namespace)
                  || StartsWith(namespace, ['k', 'u', 'b', 'e', '-'])
                  || StartsWith(namespace, "openshift-") || StartsWith(namespace, "istio-"))
  {
    PrefixIsStart("kube-", namespace);
    PrefixIsStart("openshift-", namespace);
    PrefixIsStart("istio-", namespace);
  }

  lemma PrefixIsStart(prefix: string, s: string)
    ensures prefix <= s <==> StartsWith(s, prefix)
  {
    if StartsWith(s, prefix) {
      assert s[..|prefix|] == prefix;
    }
  }

  /** A namespace that passes carries every required label and none of the forbidden pairs, key and value. */
  lemma AllowedMetadata(config: Config, env: Env, namespace: string, k: string)
    requires Filter(config, env, namespace).allowed && env.hasClient && namespace in env.namespaces
    ensures var m := env.namespaces[namespace];
            && (k in config.requiredLabels ==> k in m.labels && m.labels[k] == config.requiredLabels[k])
            && (k in config.forbiddenLabels && k in m.labels ==> m.labels[k] != config.forbiddenLabels[k])
            && (k in config.forbiddenAnnotations && k in m.annotations ==>
                  m.annotations[k] != config.forbiddenAnnotations[k])
  {
    FilterAllowsExactlyThePermitted(config, env, namespace);
  }

  /** Past the stages before it, what the metadata stage decides and says. */
  lemma MetadataDecisions(config: Config, env: Env, namespace: string, rule: string)
    ensures var r := MetadataStage(config, env, namespace, rule);
            if !env.hasClient then r == FilterResult(true, "passed all filters", rule)
            else if namespace !in env.namespaces then
              r == FilterResult(true, "passed all filters", "namespace_not_found")
            else
              var m := env.namespaces[namespace];
              && (r == FilterResult(false, "missing required labels", "required_labels_check") <==>
                    exists k :: k in config.requiredLabels
                                && (k !in m.labels || m.labels[k] != config.requiredLabels[k]))
              && (r == FilterResult(false, "has forbidden labels", "forbidden_labels_check") ==>
                    exists k :: k in config.forbiddenLabels && k in m.labels
                                && m.labels[k] == config.forbiddenLabels[k])
              && (r == FilterResult(false, "has forbidden annotations", "forbidden_annotations_check") ==>
                    exists k :: k in config.forbiddenAnnotations && k in m.annotations
                                && m.annotations[k] == config.forbiddenAnnotations[k])
              && (r.allowed ==> r == FilterResult(true, "passed all filters", rule))
              && (!r.allowed ==>
                    || r == FilterResult(false, "missing required labels", "required_labels_check")
                    || r == FilterResult(false, "has forbidden labels", "forbidden_labels_check")
                    || r == FilterResult(false, "has forbidden annotations", "forbidden_annotations_check"))
  {
  }

  /** What the exclusion stages say when they turn a namespace away. */
  lemma ExclusionDecisions(config: Config, env: Env, namespace: string)
    ensures var r := Filter(config, env, namespace);
            && (IsSystem(config, namespace) && !config.includeSystemNamespaces ==>
                  r == FilterResult(false, "system namespace excluded", "system_namespace_exclusion"))
            && (!(IsSystem(config, namespace) && !config.includeSystemNamespaces)
                && namespace in config.excludeNamespaces ==>
                  r == FilterResult(false, "explicitly excluded", "exclude_namespace:" + namespace))
            && (r.reason == "matched exclude pattern" ==>
                  exists i :: 0 <= i < |config.excludePatterns| && env.matches(config.excludePatterns[i], namespace)
                              && r == FilterResult(false, "matched exclude pattern",
                                                   "exclude_pattern:" + config.excludePatterns[i])
                              && forall j :: 0 <= j < i ==> !env.matches(config.excludePatterns[j], namespace))
  {
  }

  /** What the inclusion stages say. */
  lemma InclusionDecisions(config: Config, env: Env, namespace: string)
    ensures var r := Filter(config, env, namespace);
            && (r.reason == "not in include list" ==>
                  namespace !in config.includeNamespaces && config.includeNamespaces != []
                  && r == FilterResult(false, "not in include list", "include_namespace_check"))
            && (r.reason == "no include pattern matched" ==>
                  config.includePatterns != []
                  && r == FilterResult(false, "no include pattern matched", "include_pattern_check"))
  {
  }

  /** Nobody else has a word for turning a namespace away. */
  lemma AllReasons(config: Config, env: Env, namespace: string)
    ensures var r := Filter(config, env, namespace);
            !r.allowed ==>
              || r.reason == "system namespace excluded" || r.reason == "explicitly excluded"
              || r.reason == "matched exclude pattern" || r.reason == "not in include list"
              || r.reason == "no include pattern matched" || r.reason == "missing required labels"
              || r.reason == "has forbidden labels" || r.reason == "has forbidden annotations"
  {
    MetadataDecisions(config, env, namespace, InclusionRule(config, env, namespace));
  }

  /** Without a client, the rule of a namespace that passes: the first pattern, else the list, that names it. */
  lemma PassingRule(config: Config, env: Env, namespace: string)
    requires Filter(config, env, namespace).allowed && !env.hasClient
    ensures var r := Filter(config, env, namespace);
            if config.includePatterns == [] then
              r.matchedRule == if config.includeNamespaces == [] then "" else "include_namespace:" + namespace
            else
              exists i :: 0 <= i < |config.includePatterns| && env.matches(config.includePatterns[i], namespace)
                          && r.matchedRule == "include_pattern:" + config.includePatterns[i]
                          && forall j :: 0 <= j < i ==> !env.matches(config.includePatterns[j], namespace)
  {
    FilterAllowsExactlyThePermitted(config, env, namespace);
  }

  // Compiled patterns.

  /** A slot of a compiled pattern list; a compilation that stops leaves nil slots behind. */
  datatype Regex = Nil | Compiled(pattern: string)

  /** The first pattern that does not compile; the number of patterns if all do. */
  function FirstBad(env: Env, patterns: seq<string>): (n: nat)
    ensures n <= |patterns|
    ensures n < |patterns| ==> !env.compiles(patterns[n])
    ensures forall i :: 0 <= i < n ==> env.compiles(patterns[i])
  {
    if patterns == [] || !env.compiles(patterns[0]) then 0 else 1 + FirstBad(env, patterns[1..])
  }

  predicate AllCompile(env: Env, patterns: seq<string>) {
    FirstBad(env, patterns) == |patterns|
  }

  function CompiledList(env: Env, patterns: seq<string>): seq<Regex> {
    seq(|patterns|, i requires 0 <= i < |patterns| =>
      if i < FirstBad(env, patterns) then Compiled(patterns[i]) else Nil)
  }

  /** What UpdateConfig compiles; the label selectors it builds cannot fail. */
  predicate Compiles(config: Config, env: Env) {
    AllCompile(env, config.includePatterns) && AllCompile(env, config.excludePatterns)
  }

  /** What a loop over a compiled list comes to; calling a nil pattern panics. */
  datatype Search = Hit(index: nat) | Miss | NilPattern

  function Find(env: Env, regexes: seq<Regex>, namespace: string): (r: Search)
    ensures r.Hit? ==> r.index < |regexes|
  {
    if regexes == [] then Miss
    else if regexes[0].Nil? then NilPattern
    else if env.matches(regexes[0].pattern, namespace) then Hit(0)
    else
      var rest := Find(env, regexes[1..], namespace);
      if rest.Hit? then Hit(rest.index + 1) else rest
  }

  datatype Outcome = Answer(result: FilterResult) | Panic

  /** The inclusion stages, over the compiled include list. */
  function IncludeStage(config: Config, includes: seq<Regex>, env: Env, namespace: string): Outcome {
    if config.includeNamespaces != [] && namespace !in config.includeNamespaces then
      Answer(Blocked("not in include list", "include_namespace_check"))
    else
      var listed := if namespace in config.includeNamespaces then "include_namespace:" + namespace else "";
      if includes == [] then Answer(MetadataStage(config, env, namespace, listed))
      else match Find(env, includes, namespace)
        case NilPattern => Panic
        case Miss => Answer(Blocked("no include pattern matched", "include_pattern_check"))
        case Hit(i) =>
          if i < |config.includePatterns|
          then Answer(MetadataStage(config, env, namespace, "include_pattern:" + config.includePatterns[i]))
          else Panic
  }

  /**
   * performFiltering over the pattern lists as they happen to be compiled: a nil pattern panics, and
   * so does naming the rule of a match that lies beyond the configured patterns.
   */
  function FilterWith(
      config: Config, includes: seq<Regex>, excludes: seq<Regex>, env: Env, namespace: string): Outcome {
    if IsSystem(config, namespace) && !config.includeSystemNamespaces then
      Answer(Blocked("system namespace excluded", "system_namespace_exclusion"))
    else if namespace in config.excludeNamespaces then
      Answer(Blocked("explicitly excluded", "exclude_namespace:" + namespace))
    else match Find(env, excludes, namespace)
      case NilPattern => Panic
      case Hit(i) =>
        if i < |config.excludePatterns|
        then Answer(Blocked("matched exclude pattern", "exclude_pattern:" + config.excludePatterns[i]))
        else Panic
      case Miss => IncludeStage(config, includes, env, namespace)
  }

  lemma CompiledTail(env: Env, patterns: seq<string>)
    requires patterns != [] && env.compiles(patterns[0])
    ensures CompiledList(env, patterns) == [Compiled(patterns[0])] + CompiledList(env, patterns[1..])
  {
    var bad := FirstBad(env, patterns[1..]);
    assert FirstBad(env, patterns) == 1 + bad;
    forall i | 0 < i < |patterns|
      ensures CompiledList(env, patterns)[i] == CompiledList(env, patterns[1..])[i - 1]
    {
      assert patterns[1..][i - 1] == patterns[i];
    }
  }

  /** A loop over a list compiled as far as it goes finds the first match before the first bad pattern. */
  lemma {:induction false} FindInCompiled(env: Env, patterns: seq<string>, namespace: string)
    ensures var m, bad := FirstMatch(env, patterns, namespace), FirstBad(env, patterns);
            Find(env, CompiledList(env, patterns), namespace)
            == if m < bad then Hit(m) else if bad < |patterns| then NilPattern else Miss
  {
    if patterns != [] && env.compiles(patterns[0]) {
      FindInCompiled(env, patterns[1..], namespace);
      CompiledTail(env, patterns);
    }
  }

  /** With everything compiled, the staged code computes the configuration's decision. */
  lemma CompiledFilterDecides(config: Config, env: Env, namespace: string)
    requires Compiles(config, env)
    ensures FilterWith(config, CompiledList(env, config.includePatterns), CompiledList(env, config.excludePatterns),
                       env, namespace)
         == Answer(Filter(config, env, namespace))
  {
    FindInCompiled(env, config.excludePatterns, namespace);
    FindInCompiled(env, config.includePatterns, namespace);
  }

  // The filter over time.

  datatype State = State(
    config: Config, includes: seq<Regex>, excludes: seq<Regex>, cache: map<string, FilterResult>)

  datatype Operation = Lookup(namespace: string) | Refresh | Update(config: Config)

  /** compilePatterns: the include list first, and the exclude list only if that went through. */
  function Recompiled(s: State, config: Config, env: Env): State {
    s.(config := config,
       includes := CompiledList(env, config.includePatterns),
       excludes := if AllCompile(env, config.includePatterns) then CompiledList(env, config.excludePatterns)
                  else s.excludes)
  }

  function Initial(config: Config, env: Env): State {
    Recompiled(State(config, [], [], map[]), config, env)
  }

  function Inserted(s: State, namespace: string, r: FilterResult): State {
    s.(cache := (if |s.cache| >= s.config.cacheSize then map[] else s.cache)[namespace := r])
  }

  /** What a lookup comes to, and the state after it. */
  function AfterLookup(s: State, env: Env, namespace: string): (Outcome, State) {
    if s.config.cacheEnabled && namespace in s.cache then (Answer(s.cache[namespace]), s)
    else match FilterWith(s.config, s.includes, s.excludes, env, namespace)
      case Panic => (Panic, s)
      case Answer(r) => (Answer(r), if s.config.cacheEnabled then Inserted(s, namespace, r) else s)
  }

  function Next(s: State, env: Env, op: Operation): State {
    match op
    case Lookup(n) => AfterLookup(s, env, n).1
    case Refresh => s.(cache := map[])
    case Update(config) =>
      var r := Recompiled(s, config, env);
      if Compiles(config, env) && config.cacheEnabled then r.(cache := map[]) else r
  }

  class NamespaceFilter {
    var config: Config
    var includeRegex: seq<Regex>
    var excludeRegex: seq<Regex>
    var cache: map<string, FilterResult>
    const env: Env

    function View(): State
      reads this
    {
      State(config, includeRegex, excludeRegex, cache)
    }

    /** NewNamespaceFilter, which hands out no filter when a pattern does not compile. */
    constructor (config: Config, env: Env)
      requires Compiles(config, env)
      ensures View() == Initial(config, env) && this.env == env
    {
      this.config, this.env, this.cache := config, env, map[];
      this.includeRegex, this.excludeRegex := [], [];
      new;
      var ok := CompilePatterns();
    }

    /** The loop that compiles one list of patterns, up to the first that does not compile. */
    method CompileList(patterns: seq<string>) returns (regexes: seq<Regex>, ok: bool)
      ensures regexes == CompiledList(env, patterns)
      ensures ok <==> AllCompile(env, patterns)
    {
      regexes := seq(|patterns|, i => Nil);
      ok := true;
      for i := 0 to |patterns|
        invariant |regexes| == |patterns|
        invariant i <= FirstBad(env, patterns)
        invariant forall k :: 0 <= k < |patterns| ==> regexes[k] == if k < i then Compiled(patterns[k]) else Nil
      {
        if !env.compiles(patterns[i]) {
          assert FirstBad(env, patterns) == i;
          return regexes, false;
        }
        regexes := regexes[i := Compiled(patterns[i])];
      }
    }

    method CompilePatterns() returns (ok: bool)
      modifies this`includeRegex, this`excludeRegex
      ensures ok <==> Compiles(config, env)
      ensures View() == Recompiled(old(View()), config, env)
    {
      includeRegex, ok := CompileList(config.includePatterns);
      if !ok {
        return;
      }
      excludeRegex, ok := CompileList(config.excludePatterns);
    }

    /** The loop over a compiled list. */
    method FindMatch(regexes: seq<Regex>, namespace: string) returns (r: Search)
      ensures r == Find(env, regexes, namespace)
    {
      var n := 0;
      while n < |regexes|
        invariant n <= |regexes|
        invariant Find(env, regexes, namespace) == Shifted(Find(env, regexes[n..], namespace), n)
      {
        if regexes[n].Nil? {
          return NilPattern;
        }
        if env.matches(regexes[n].pattern, namespace) {
          return Hit(n);
        }
        n := n + 1;
      }
      return Miss;
    }

    /** applyMetadataFilters, and the result if it lets the namespace through. */
    method ApplyMetadataFilters(namespace: string, rule: string) returns (result: FilterResult)
      ensures result == MetadataStage(config, env, namespace, rule)
    {
      result := FilterResult(true, "default", rule);
      if env.hasClient {
        if namespace !in env.namespaces {
          result := result.(reason := "namespace not found, allowing", matchedRule := "namespace_not_found");
        } else {
          var m := env.namespaces[namespace];
          if !HasAll(config.requiredLabels, m.labels) {
            return Blocked("missing required labels", "required_labels_check");
          }
          if HasAny(config.forbiddenLabels, m.labels) {
            return Blocked("has forbidden labels", "forbidden_labels_check");
          }
          if HasAny(config.forbiddenAnnotations, m.annotations) {
            return Blocked("has forbidden annotations", "forbidden_annotations_check");
          }
        }
      }
      result := result.(reason := "passed all filters");
    }

    method ApplyInclusionFilters(namespace: string) returns (outcome: Outcome)
      ensures outcome == IncludeStage(config, includeRegex, env, namespace)
    {
      var rule := "";
      if |config.includeNamespaces| > 0 {
        if namespace in config.includeNamespaces {
          rule := "include_namespace:" + namespace;
        } else {
          return Answer(Blocked("not in include list", "include_namespace_check"));
        }
      }
      if |includeRegex| > 0 {
        var found := FindMatch(includeRegex, namespace);
        match found {
          case NilPattern => return Panic;
          case Miss => return Answer(Blocked("no include pattern matched", "include_pattern_check"));
          case Hit(i) =>
            if i >= |config.includePatterns| {
              return Panic;
            }
            rule := "include_pattern:" + config.includePatterns[i];
        }
      }
      var result := ApplyMetadataFilters(namespace, rule);
      return Answer(result);
    }

    method PerformFiltering(namespace: string) returns (outcome: Outcome)
      ensures outcome == FilterWith(config, includeRegex, excludeRegex, env, namespace)
    {
      if IsSystem(config, namespace) && !config.includeSystemNamespaces {
        return Answer(Blocked("system namespace excluded", "system_namespace_exclusion"));
      }
      if namespace in config.excludeNamespaces {
        return Answer(Blocked("explicitly excluded", "exclude_namespace:" + namespace));
      }
      var found := FindMatch(excludeRegex, namespace);
      match found {
        case NilPattern => return Panic;
        case Hit(i) =>
          if i >= |config.excludePatterns| {
            return Panic;
          }
          return Answer(Blocked("matched exclude pattern", "exclude_pattern:" + config.excludePatterns[i]));
        case Miss =>
      }
      outcome := ApplyInclusionFilters(namespace);
    }

    /** setCachedResult, which empties a full cache first. */
    method SetCachedResult(namespace: string, result: FilterResult)
      modifies this`cache
      ensures View() == Inserted(old(View()), namespace, result)
    {
      if |cache| >= config.cacheSize {
        cache := map[];
      }
      cache := cache[namespace := result];
    }

    method IsNamespaceAllowed(namespace: string) returns (outcome: Outcome)
      modifies this`cache
      ensures (outcome, View()) == AfterLookup(old(View()), env, namespace)
    {
      if config.cacheEnabled && namespace in cache {
        return Answer(cache[namespace]);
      }
      outcome := PerformFiltering(namespace);
      if outcome.Answer? && config.cacheEnabled {
        SetCachedResult(namespace, outcome.result);
      }
    }

    /** The periodic refresh. */
    method RefreshCache()
      modifies this`cache
      ensures View() == Next(old(View()), env, Refresh)
    {
      cache := map[];
    }

    /** UpdateConfig; the new configuration is in force even when it does not compile. */
    method UpdateConfig(config: Config) returns (ok: bool)
      modifies this`config, this`includeRegex, this`excludeRegex, this`cache
      ensures ok <==> Compiles(config, env)
      ensures View() == Next(old(View()), env, Update(config))
    {
      this.config := config;
      ok := CompilePatterns();
      if ok && config.cacheEnabled {
        cache := map[];
      }
    }
  }

  /** A search result counted from `n` slots earlier. */
  ghost function Shifted(r: Search, n: nat): Search {
    if r.Hit? then Hit(r.index + n) else r
  }

  // Transparency over runs.

  function Exec(s: State, env: Env, ops: seq<Operation>): State
    decreases |ops|
  {
    if ops == [] then s else Exec(Next(s, env, ops[0]), env, ops[1..])
  }

  datatype Latest = NoUpdate | Latest(config: Config)

  function LatestUpdate(ops: seq<Operation>): Latest {
    if ops == [] then NoUpdate
    else if LatestUpdate(ops[1..]).Latest? then LatestUpdate(ops[1..])
    else if ops[0].Update? then Latest(ops[0].config)
    else NoUpdate
  }

  /** Every lookup answers what uncached filtering under the configuration in force stands for. */
  ghost predicate Transparent(s: State, env: Env) {
    forall n :: AfterLookup(s, env, n).0 == Answer(Filter(s.config, env, n))
  }

  ghost predicate Coherent(s: State, env: Env) {
    && Compiles(s.config, env)
    && s.includes == CompiledList(env, s.config.includePatterns)
    && s.excludes == CompiledList(env, s.config.excludePatterns)
    && (s.config.cacheEnabled ==>
          && (forall n :: n in s.cache ==> s.cache[n] == Filter(s.config, env, n))
          && |s.cache| <= Max(1, s.config.cacheSize))
  }

  lemma CoherentIsTransparent(s: State, env: Env)
    requires Coherent(s, env)
    ensures Transparent(s, env)
  {
    forall n ensures AfterLookup(s, env, n).0 == Answer(Filter(s.config, env, n)) {
      CompiledFilterDecides(s.config, env, n);
    }
  }

  lemma InsertedSize(s: State, namespace: string, r: FilterResult)
    ensures |Inserted(s, namespace, r).cache| <= Max(1, s.config.cacheSize)
  {
    var kept: map<string, FilterResult> := if |s.cache| >= s.config.cacheSize then map[] else s.cache;
    assert Inserted(s, namespace, r).cache.Keys == kept.Keys + {namespace};
  }

  /** A successful update makes any state coherent, whatever happened before it. */
  lemma UpdateRestores(s: State, env: Env, config: Config)
    requires Compiles(config, env)
    ensures Coherent(Next(s, env, Update(config)), env)
  {
  }

  lemma StepKeepsCoherence(s: State, env: Env, op: Operation)
    requires Coherent(s, env) && !op.Update?
    ensures Coherent(Next(s, env, op), env)
  {
    if op.Lookup? {
      CompiledFilterDecides(s.config, env, op.namespace);
      InsertedSize(s, op.namespace, Filter(s.config, env, op.namespace));
    }
  }

  lemma {:induction false} RunIsCoherent(s: State, env: Env, ops: seq<Operation>)
    requires LatestUpdate(ops).NoUpdate? ==> Coherent(s, env)
    requires LatestUpdate(ops).Latest? ==> Compiles(LatestUpdate(ops).config, env)
    ensures Coherent(Exec(s, env, ops), env)
    decreases |ops|
  {
    if ops != [] {
      if LatestUpdate(ops[1..]).NoUpdate? {
        if ops[0].Update? {
          UpdateRestores(s, env, ops[0].config);
        } else {
          StepKeepsCoherence(s, env, ops[0]);
        }
      }
      RunIsCoherent(Next(s, env, ops[0]), env, ops[1..]);
    }
  }

  lemma InitialIsCoherent(config: Config, env: Env)
    requires Compiles(config, env)
    ensures Coherent(Initial(config, env), env)
  {
  }

  /**
   * After any run of lookups, refreshes and updates whose latest update went through, with caching
   * switched on and off along the way, a lookup answers what uncached filtering answers under the
   * configuration in force, and while caching is on the cache holds at most max(1, CacheSize)
   * decisions.
   */
  lemma CacheIsTransparent(config: Config, env: Env, ops: seq<Operation>)
    requires Compiles(config, env)
    requires LatestUpdate(ops).Latest? ==> Compiles(LatestUpdate(ops).config, env)
    ensures var end := Exec(Initial(config, env), env, ops);
            && Transparent(end, env)
            && (end.config.cacheEnabled ==> |end.cache| <= Max(1, end.config.cacheSize))
  {
    InitialIsCoherent(config, env);
    RunIsCoherent(Initial(config, env), env, ops);
    CoherentIsTransparent(Exec(Initial(config, env), env, ops), env);
  }

  // When an update keeps transparency.

  /** Every namespace is decided before the first exclude pattern that does not compile. */
  ghost predicate Shielded(config: Config, env: Env) {
    forall n ::
      || (IsSystem(config, n) && !config.includeSystemNamespaces)
      || n in config.excludeNamespaces
      || FirstMatch(env, config.excludePatterns, n) < FirstBad(env, config.excludePatterns)
  }

  /** A failed update that does no harm: no cache, and only an exclude pattern that is never reached. */
  ghost predicate Harmless(config: Config, env: Env) {
    !config.cacheEnabled && AllCompile(env, config.includePatterns) && Shielded(config, env)
  }

  /** The states a filter can be in when the next update comes, if the latest one went through. */
  ghost predicate Before(config: Config, env: Env, ops: seq<Operation>) {
    Compiles(config, env) && (LatestUpdate(ops).Latest? ==> Compiles(LatestUpdate(ops).config, env))
  }

  ghost predicate KeepsTransparency(update: Config, env: Env) {
    forall config, ops :: Before(config, env, ops) ==>
      Transparent(Next(Exec(Initial(config, env), env, ops), env, Update(update)), env)
  }

  lemma HarmlessKeepsTransparency(s: State, env: Env, update: Config)
    requires Harmless(update, env)
    ensures Transparent(Next(s, env, Update(update)), env)
  {
    var t := Next(s, env, Update(update));
    forall n ensures AfterLookup(t, env, n).0 == Answer(Filter(update, env, n)) {
      FindInCompiled(env, update.excludePatterns, n);
    }
  }

  /** For any configuration there is one without patterns that decides the other way. */
  lemma Opposite(update: Config, env: Env, name: string) returns (config: Config)
    ensures config.cacheEnabled && config.includePatterns == config.excludePatterns == []
    ensures Filter(config, env, name).allowed != Filter(update, env, name).allowed
  {
    var open := Config([], [], [], [], map[], map[], map[], true, [], true, 1);
    config := if Filter(update, env, name).allowed then open.(excludeNamespaces := [name]) else open;
    FilterAllowsExactlyThePermitted(config, env, name);
  }

  lemma LookupCaches(config: Config, env: Env, name: string)
    requires config.cacheEnabled && Compiles(config, env)
    ensures var looked := Next(Initial(config, env), env, Lookup(name));
            name in looked.cache && looked.cache[name] == Filter(config, env, name)
  {
    CompiledFilterDecides(config, env, name);
  }

  lemma OnlyLookup(config: Config, env: Env, name: string)
    ensures Exec(Initial(config, env), env, [Lookup(name)]) == Next(Initial(config, env), env, Lookup(name))
    ensures LatestUpdate([Lookup(name)]) == NoUpdate
  {
    var ops := [Lookup(name)];
    assert ops[1..] == [];
  }

  /** With caching on, a namespace decided the other way before keeps its old decision. */
  lemma OldDecisionIsServed(update: Config, env: Env)
    requires update.cacheEnabled && !Compiles(update, env)
    ensures !KeepsTransparency(update, env)
  {
    var name := "team";
    var config := Opposite(update, env, name);
    LookupCaches(config, env, name);
    OnlyLookup(config, env, name);
    var looked := Next(Initial(config, env), env, Lookup(name));
    assert Before(config, env, [Lookup(name)]);
    assert AfterLookup(Next(looked, env, Update(update)), env, name).0 == Answer(looked.cache[name]);
  }

  ghost function LongestOf(names: seq<string>): (n: nat)
    ensures forall s :: s in names ==> |s| <= n
  {
    if names == [] then 0
    else
      assert forall s :: s in names ==> s == names[0] || s in names[1..];
      Max(|names[0]|, LongestOf(names[1..]))
  }

  /** There is always a namespace that no list names and no system prefix claims. */
  lemma FreshName(a: seq<string>, b: seq<string>) returns (name: string)
    ensures name !in a && name !in b
    ensures !("kube-" <= name) && !("openshift-" <= name) && !("istio-" <= name)
  {
    name := seq(1 + LongestOf(a) + LongestOf(b), i => 'a');
    assert name[0] == 'a';
  }

  lemma {:induction false} FindPast(env: Env, never: string, every: string, k: nat, name: string)
    requires !env.matches(never, name) && env.matches(every, name)
    ensures Find(env, seq(k, i => Compiled(never)) + [Compiled(every)], name) == Hit(k)
  {
    var list := seq(k, i => Compiled(never)) + [Compiled(every)];
    if k > 0 {
      FindPast(env, never, every, k - 1, name);
      assert list[1..] == seq(k - 1, i => Compiled(never)) + [Compiled(every)];
    }
  }

  lemma {:induction false} FirstBadOfGood(env: Env, patterns: seq<string>)
    requires forall i :: 0 <= i < |patterns| ==> env.compiles(patterns[i])
    ensures AllCompile(env, patterns)
    ensures CompiledList(env, patterns) == seq(|patterns|, i requires 0 <= i < |patterns| => Compiled(patterns[i]))
  {
  }

  /** A bad include pattern leaves the old exclude list, which can match beyond the new patterns. */
  lemma StaleExcludesPanic(update: Config, env: Env, never: string, every: string)
    requires env.compiles(never) && forall n :: !env.matches(never, n)
    requires env.compiles(every) && forall n :: env.matches(every, n)
    requires !AllCompile(env, update.includePatterns) && !update.cacheEnabled
    ensures !KeepsTransparency(update, env)
  {
    var k := |update.excludePatterns|;
    var patterns := seq(k, i => never) + [every];
    var config := Config([], [], [], patterns, map[], map[], map[], true, [], true, 1);
    FirstBadOfGood(env, patterns);
    assert CompiledList(env, patterns) == seq(k, i => Compiled(never)) + [Compiled(every)];
    var name := FreshName(update.systemNamespaces, update.excludeNamespaces);
    FindPast(env, never, every, k, name);
    assert Before(config, env, []);
    var s := Exec(Initial(config, env), env, []);
    var t := Next(s, env, Update(update));
    assert t.excludes == CompiledList(env, patterns) && t.config == update;
    assert AfterLookup(t, env, name).0 == Panic;
  }

  lemma NilExcludePanics(update: Config, env: Env)
    requires AllCompile(env, update.includePatterns) && !update.cacheEnabled
    requires !AllCompile(env, update.excludePatterns) && !Shielded(update, env)
    ensures !KeepsTransparency(update, env)
  {
    var name :| !(IsSystem(update, name) && !update.includeSystemNamespaces)
                && name !in update.excludeNamespaces
                && FirstMatch(env, update.excludePatterns, name) >= FirstBad(env, update.excludePatterns);
    FindInCompiled(env, update.excludePatterns, name);
    var config := Config([], [], [], [], map[], map[], map[], true, [], true, 1);
    assert Before(config, env, []);
    var t := Next(Exec(Initial(config, env), env, []), env, Update(update));
    assert AfterLookup(t, env, name).0 == Panic;
  }

  /**
   * An update keeps lookups transparent from every state that a filter can reach if and only if it
   * compiles, or caching is off in it and its only bad patterns are exclude patterns that no
   * namespace reaches. (Some pattern matches every namespace, and some matches none.)
   */
  lemma UpdateKeepsTransparencyIff(update: Config, env: Env, never: string, every: string)
    requires env.compiles(never) && forall n :: !env.matches(never, n)
    requires env.compiles(every) && forall n :: env.matches(every, n)
    ensures KeepsTransparency(update, env) <==> Compiles(update, env) || Harmless(update, env)
  {
    if Compiles(update, env) || Harmless(update, env) {
      forall config, ops | Before(config, env, ops)
        ensures Transparent(Next(Exec(Initial(config, env), env, ops), env, Update(update)), env)
      {
        var s := Exec(Initial(config, env), env, ops);
        if Compiles(update, env) {
          UpdateRestores(s, env, update);
          CoherentIsTransparent(Next(s, env, Update(update)), env);
        } else {
          HarmlessKeepsTransparency(s, env, update);
        }
      }
    } else if update.cacheEnabled {
      OldDecisionIsServed(update, env);
    } else if !AllCompile(env, update.includePatterns) {
      StaleExcludesPanic(update, env, never, every);
    } else {
      NilExcludePanics(update, env);
    }
  }
}
