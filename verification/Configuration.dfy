/**
 * pkg/apis/configuration.go and internal/annotations/parser.go: the two parsers of a workload's
 * annotations, and the writer that turns a configuration back into annotations. A missing
 * annotation map behaves as an empty one in both parsers.
 */
module Configuration {
  import opened GoInt
  import opened Strconv
  import opened Policy

  const MIN_ON_DEMAND := "spotalis.io/min-on-demand"
  const SPOT_PERCENTAGE := "spotalis.io/spot-percentage"
  const ENABLED_LABEL := "spotalis.io/enabled"
  const MAX_MIN_ON_DEMAND := 10000

  datatype Setting = Omitted | Explicit(value: Int32)

  /** The fields a workload supplied itself; an explicit zero is not an omission. */
  datatype WorkloadPolicy = WorkloadPolicy(minOnDemand: Setting, spotPercentage: Setting)

  datatype WorkloadConfiguration = WorkloadConfiguration(
    enabled: bool,
    minOnDemand: Int32,
    spotPercentage: Int32,
    policy: WorkloadPolicy)
  {
    function AllocationPolicy(): AllocationPolicy {
      Policy.AllocationPolicy(minOnDemand, spotPercentage)
    }
  }

  const NOTHING_SET := WorkloadPolicy(Omitted, Omitted)

  datatype ConfigError =
    | MinOnDemandSyntax
    | MinOnDemandRange(count: int)
    | SpotPercentageSyntax
    | SpotPercentageRange(percentage: int)
    | PolicyRejected(error: PolicyError)

  datatype ParseResult = Accepted(config: WorkloadConfiguration) | Failed(error: ConfigError)

  /** ParseFromAnnotations: 32-bit numbers, then the allocation policy's own validation. */
  function ParseFromAnnotations(annotations: map<string, string>, enabled: bool): ParseResult {
    var blank := WorkloadConfiguration(enabled, 0, 0, NOTHING_SET);
    if !enabled then Accepted(blank)
    else
      var min := if MIN_ON_DEMAND in annotations then ParseInt(annotations[MIN_ON_DEMAND], 32) else Number(0);
      var spot := if SPOT_PERCENTAGE in annotations
                  then ParseInt(TrimPercent(annotations[SPOT_PERCENTAGE]), 32) else Number(0);
      if min.NotANumber? then Failed(MinOnDemandSyntax)
      else if spot.NotANumber? then Failed(SpotPercentageSyntax)
      else
        var config := Filled(annotations, min.value, spot.value);
        var v := Validate(0, config.AllocationPolicy());
        if v.Invalid? then Failed(PolicyRejected(v.error)) else Accepted(config)
  }

  function Filled(annotations: map<string, string>, min: Int32, spot: Int32): WorkloadConfiguration {
    WorkloadConfiguration(true, min, spot, WorkloadPolicy(
      if MIN_ON_DEMAND in annotations then Explicit(min) else Omitted,
      if SPOT_PERCENTAGE in annotations then Explicit(spot) else Omitted))
  }

  /** ToAnnotations: explicit fields only, or both when nothing was explicit. */
  function ToAnnotations(config: WorkloadConfiguration): map<string, string> {
    if !config.enabled then map[]
    else
      var legacy := config.policy == NOTHING_SET;
      var min := if config.policy.minOnDemand.Explicit? || legacy
                 then map[MIN_ON_DEMAND := FormatInt(config.minOnDemand)] else map[];
      var spot := if config.policy.spotPercentage.Explicit? || legacy
                  then map[SPOT_PERCENTAGE := FormatInt(config.spotPercentage) + "%"] else map[];
      min + spot
  }

  /** HasSpotalisAnnotations, without which the webhook takes a workload's pods for unmanaged. */
  predicate HasSpotalisAnnotations(annotations: map<string, string>) {
    SPOT_PERCENTAGE in annotations || MIN_ON_DEMAND in annotations
  }

  predicate LabelEnables(labels: map<string, string>) {
    ENABLED_LABEL in labels && labels[ENABLED_LABEL] == "true"
  }

  /** ParseWorkloadConfiguration: 64-bit numbers, percentage first, with a bounded floor. */
  function ParseWorkloadConfiguration(labels: map<string, string>, annotations: map<string, string>): ParseResult {
    if !LabelEnables(labels) then Accepted(WorkloadConfiguration(false, 0, 0, NOTHING_SET))
    else
      var spot := if SPOT_PERCENTAGE in annotations
                  then ParseInt(TrimPercent(annotations[SPOT_PERCENTAGE]), 64) else Number(0);
      var min := if MIN_ON_DEMAND in annotations then ParseInt(annotations[MIN_ON_DEMAND], 64) else Number(0);
      if spot.NotANumber? then Failed(SpotPercentageSyntax)
      else if spot.value < 0 || spot.value > 100 then Failed(SpotPercentageRange(spot.value))
      else if min.NotANumber? then Failed(MinOnDemandSyntax)
      else if min.value < 0 || min.value > MAX_MIN_ON_DEMAND then Failed(MinOnDemandRange(min.value))
      else Accepted(Filled(annotations, min.value, spot.value))
  }

  /** ValidateAnnotations, which collects a finding per bad annotation instead of stopping. */
  method ValidateAnnotations(annotations: map<string, string>) returns (errors: seq<ConfigError>)
    ensures forall labels :: LabelEnables(labels) ==>
              (errors == [] <==> ParseWorkloadConfiguration(labels, annotations).Accepted?)
    ensures forall labels :: LabelEnables(labels) && errors != [] ==>
              ParseWorkloadConfiguration(labels, annotations) == Failed(errors[0])
    ensures |errors| <= 2
  {
    errors := [];
    if SPOT_PERCENTAGE in annotations {
      var p := ParseInt(TrimPercent(annotations[SPOT_PERCENTAGE]), 64);
      if p.NotANumber? {
        errors := errors + [SpotPercentageSyntax];
      } else if p.value < 0 || p.value > 100 {
        errors := errors + [SpotPercentageRange(p.value)];
      }
    }
    if MIN_ON_DEMAND in annotations {
      var c := ParseInt(annotations[MIN_ON_DEMAND], 64);
      if c.NotANumber? {
        errors := errors + [MinOnDemandSyntax];
      } else if c.value < 0 || c.value > MAX_MIN_ON_DEMAND {
        errors := errors + [MinOnDemandRange(c.value)];
      }
    }
  }

  /**
   * Writing an accepted configuration and reading it back restores both values; which fields
   * were explicit is restored exactly when at least one was. With neither, both come back as
   * explicit zeros.
   */
  lemma RoundTrip(annotations: map<string, string>)
    requires ParseFromAnnotations(annotations, true).Accepted?
    ensures var c := ParseFromAnnotations(annotations, true).config;
            var again := ParseFromAnnotations(ToAnnotations(c), true);
            && again.Accepted?
            && again.config.AllocationPolicy() == c.AllocationPolicy()
            && (again.config.policy == c.policy <==> c.policy != NOTHING_SET)
            && (c.policy == NOTHING_SET ==> again.config.policy == WorkloadPolicy(Explicit(0), Explicit(0)))
  {
    var c := ParseFromAnnotations(annotations, true).config;
    var written := ToAnnotations(c);
    ParseFormat(c.minOnDemand, 32);
    ParseFormat(c.spotPercentage, 32);
    TrimFormattedPercent(c.spotPercentage);
    assert MIN_ON_DEMAND != SPOT_PERCENTAGE;
    assert MIN_ON_DEMAND in written ==> written[MIN_ON_DEMAND] == FormatInt(c.minOnDemand);
    assert SPOT_PERCENTAGE in written ==> written[SPOT_PERCENTAGE] == FormatInt(c.spotPercentage) + "%";
  }

  /**
   * The bounded parser is ParseFromAnnotations with a cap: on an enabled workload it accepts
   * exactly what the other accepts with a floor of at most 10000, with the same result.
   */
  lemma BoundedParserIsCapped(labels: map<string, string>, annotations: map<string, string>)
    requires LabelEnables(labels)
    ensures var bounded := ParseWorkloadConfiguration(labels, annotations);
            var plain := ParseFromAnnotations(annotations, true);
            && (bounded.Accepted? <==> plain.Accepted? && plain.config.minOnDemand <= MAX_MIN_ON_DEMAND)
            && (bounded.Accepted? ==> bounded == plain)
  {
    if MIN_ON_DEMAND in annotations {
      NarrowParse(annotations[MIN_ON_DEMAND]);
    }
    if SPOT_PERCENTAGE in annotations {
      NarrowParse(TrimPercent(annotations[SPOT_PERCENTAGE]));
    }
  }

  lemma NarrowParse(s: string)
    ensures ParseInt(s, 32).Number? <==> ParseInt(s, 64).Number? && IsInt32(ParseInt(s, 64).value)
    ensures ParseInt(s, 32).Number? ==> ParseInt(s, 32) == ParseInt(s, 64)
  {
  }

  /** IsSpotalisEnabled, the reconcilers' gate, which ignores case. */
  predicate IsSpotalisEnabled(labels: map<string, string>) {
    ENABLED_LABEL in labels && ToLower(labels[ENABLED_LABEL]) == "true"
  }

  /** The gate lets through every label the parser enables, and other spellings of "true" too. */
  lemma GateAdmitsMore(labels: map<string, string>)
    ensures LabelEnables(labels) ==> IsSpotalisEnabled(labels)
    ensures IsSpotalisEnabled(map[ENABLED_LABEL := "TRUE"]) && !LabelEnables(map[ENABLED_LABEL := "TRUE"])
  {
    assert ToLower("TRUE") == "true";
    assert ToLower("true") == "true";
  }

  /** The label value in any mixture of upper and lower case, letter by letter. */
  predicate SpellsTrue(value: string) {
    && |value| == 4
    && (value[0] == 't' || value[0] == 'T') && (value[1] == 'r' || value[1] == 'R')
    && (value[2] == 'u' || value[2] == 'U') && (value[3] == 'e' || value[3] == 'E')
  }

  /** The gate is open for exactly the sixteen spellings, the parser's for one of them. */
  lemma GateIff(labels: map<string, string>)
    ensures IsSpotalisEnabled(labels) <==>
              "spotalis.io/enabled" in labels && SpellsTrue(labels["spotalis.io/enabled"])
    ensures LabelEnables(labels) <==>
              "spotalis.io/enabled" in labels && labels["spotalis.io/enabled"] == ['t', 'r', 'u', 'e']
  {
    if ENABLED_LABEL in labels {
      WordInLower(labels[ENABLED_LABEL], "true", 0);
    }
  }

  /** The percentage as a user writes it: with or without the sign. */
  predicate WritesPercentage(text: string, n: int) {
    text == FormatInt(n) || text == FormatInt(n) + "%"
  }

  lemma PercentageParses(text: string, n: int, bits: nat)
    requires bits == 32 || bits == 64
    requires InRange(n, bits) && WritesPercentage(text, n)
    ensures ParseInt(TrimPercent(text), bits) == Number(n)
  {
    ParseFormat(n, bits);
    FormatHasNoPercent(n);
    TrimFormattedPercent(n);
  }

  /**
   * On an enabled workload both parsers read the numbers that the annotations write, with or without a
   * percent sign, as given by the workload itself; they refuse exactly numbers out of range.
   */
  lemma WrittenNumbersAreRead(labels: map<string, string>, annotations: map<string, string>, spot: Int32, min: Int32)
    requires LabelEnables(labels)
    requires "spotalis.io/spot-percentage" in annotations ==>
               WritesPercentage(annotations["spotalis.io/spot-percentage"], spot)
    requires "spotalis.io/spot-percentage" !in annotations ==> spot == 0
    requires "spotalis.io/min-on-demand" in annotations ==>
               annotations["spotalis.io/min-on-demand"] == FormatInt(min)
    requires "spotalis.io/min-on-demand" !in annotations ==> min == 0
    ensures var read := WorkloadConfiguration(true, min, spot, WorkloadPolicy(
              if "spotalis.io/min-on-demand" in annotations then Explicit(min) else Omitted,
              if "spotalis.io/spot-percentage" in annotations then Explicit(spot) else Omitted));
            var plain := ParseFromAnnotations(annotations, true);
            var bounded := ParseWorkloadConfiguration(labels, annotations);
            && (plain == if min < 0 then Failed(PolicyRejected(NegativeFloor(min)))
                         else if spot < 0 || spot > 100 then Failed(PolicyRejected(PercentageOutOfRange(spot)))
                         else Accepted(read))
            && (bounded == if spot < 0 || spot > 100 then Failed(SpotPercentageRange(spot))
                           else if min < 0 || min > 10000 then Failed(MinOnDemandRange(min))
                           else Accepted(read))
  {
    if SPOT_PERCENTAGE in annotations {
      PercentageParses(annotations[SPOT_PERCENTAGE], spot, 32);
      PercentageParses(annotations[SPOT_PERCENTAGE], spot, 64);
    }
    if MIN_ON_DEMAND in annotations {
      ParseFormat(min, 32);
      ParseFormat(min, 64);
    }
  }

  /** What is no number, before an optional percent sign, is refused by both parsers. */
  lemma MalformedIsRefused(labels: map<string, string>, annotations: map<string, string>, text: string)
    requires LabelEnables(labels)
    ensures SPOT_PERCENTAGE in annotations && annotations[SPOT_PERCENTAGE] == text + "%" && !IsNumeral(text) ==>
              && ParseFromAnnotations(annotations, true).Failed?
              && ParseWorkloadConfiguration(labels, annotations) == Failed(SpotPercentageSyntax)
    ensures SPOT_PERCENTAGE in annotations && annotations[SPOT_PERCENTAGE] == text && !IsNumeral(text)
            && (text == "" || text[|text| - 1] != '%') ==>
              && ParseFromAnnotations(annotations, true).Failed?
              && ParseWorkloadConfiguration(labels, annotations) == Failed(SpotPercentageSyntax)
    ensures MIN_ON_DEMAND in annotations && !IsNumeral(annotations[MIN_ON_DEMAND]) ==>
              && ParseFromAnnotations(annotations, true) == Failed(MinOnDemandSyntax)
              && ParseWorkloadConfiguration(labels, annotations).Failed?
  {
    TrimsOneSuffix(text);
    OnlyNumeralsParse(text, 32);
    OnlyNumeralsParse(text, 64);
    if MIN_ON_DEMAND in annotations {
      OnlyNumeralsParse(annotations[MIN_ON_DEMAND], 32);
      OnlyNumeralsParse(annotations[MIN_ON_DEMAND], 64);
    }
  }

  /** A workload that is not enabled is read as one without a policy, whatever its annotations say. */
  lemma DisabledIsBlank(labels: map<string, string>, annotations: map<string, string>)
    ensures !LabelEnables(labels) ==>
              ParseWorkloadConfiguration(labels, annotations)
              == Accepted(WorkloadConfiguration(false, 0, 0, WorkloadPolicy(Omitted, Omitted)))
    ensures ParseFromAnnotations(annotations, false)
         == Accepted(WorkloadConfiguration(false, 0, 0, WorkloadPolicy(Omitted, Omitted)))
  {
  }

  /** What is written: nothing of a disabled workload; else what was explicit, or both if nothing was. */
  lemma WrittenAnnotations(config: WorkloadConfiguration)
    ensures !config.enabled ==> ToAnnotations(config) == map[]
    ensures config.enabled ==>
              var min, spot := FormatInt(config.minOnDemand), FormatInt(config.spotPercentage) + "%";
              ToAnnotations(config) ==
                match config.policy
                case WorkloadPolicy(Explicit(_), Omitted) => map["spotalis.io/min-on-demand" := min]
                case WorkloadPolicy(Omitted, Explicit(_)) => map["spotalis.io/spot-percentage" := spot]
                case _ => map["spotalis.io/min-on-demand" := min, "spotalis.io/spot-percentage" := spot]
  {
  }
}
