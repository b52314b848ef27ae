/** pkg/apis/policy.go: how many replicas of a workload belong on each capacity class. */
module Policy {
  import opened GoInt

  datatype AllocationPolicy = AllocationPolicy(minOnDemand: Int32, spotPercentage: Int32)

  datatype Allocation = Allocation(
    totalReplicas: Int32,
    effectiveOnDemandFloor: Int32,
    targetOnDemand: Int32,
    targetSpot: Int32)

  datatype PolicyError =
    | NegativeTotal(total: Int32)
    | NegativeFloor(floor: Int32)
    | PercentageOutOfRange(percentage: Int32)
    | SpotTargetOutOfRange(target: int)

  datatype Allocated = Ok(allocation: Allocation) | Rejected(error: PolicyError)

  datatype Validation = Valid | Invalid(error: PolicyError)

  function Validate(total: Int32, policy: AllocationPolicy): Validation {
    if total < 0 then Invalid(NegativeTotal(total))
    else if policy.minOnDemand < 0 then Invalid(NegativeFloor(policy.minOnDemand))
    else if policy.spotPercentage < 0 || policy.spotPercentage > 100 then
      Invalid(PercentageOutOfRange(policy.spotPercentage))
    else Valid
  }

  function Allocate(total: Int32, policy: AllocationPolicy): Allocated {
    var v := Validate(total, policy);
    if v.Invalid? then Rejected(v.error)
    else
      var floor: Int32 := Min(policy.minOnDemand, total);
      var percentageTarget64 := Quotient(Wrap64(total * policy.spotPercentage), 100);
      if percentageTarget64 < 0 || percentageTarget64 > MAX_INT32 then
        Rejected(SpotTargetOutOfRange(percentageTarget64))
      else
        var targetSpot: Int32 := Min(Wrap32(percentageTarget64), Wrap32(total - floor));
        Ok(Allocation(total, floor, Wrap32(total - targetSpot), targetSpot))
  }

  /** What a spot target may be: within the percentage, and leaving the clamped floor on-demand. */
  ghost predicate Permitted(s: int, total: Int32, policy: AllocationPolicy) {
    && 0 <= s
    && 100 * s <= total * policy.spotPercentage
    && Min(policy.minOnDemand, total) <= total - s
  }

  lemma ProductBound(total: Int32, percentage: int)
    requires total >= 0 && 0 <= percentage <= 100
    ensures 0 <= total * percentage <= 100 * total
  {
    assert total * (100 - percentage) >= 0;
  }

  /** The largest integer whose hundredfold fits under `x`. */
  lemma QuotientIsLargest(x: int, s: int)
    requires x >= 0 && 100 * s <= x
    ensures s <= Quotient(x, 100)
  {
  }

  /**
   * A request is refused exactly for the reasons validation gives: the range check after the
   * percentage is computed never fires, and no 32- or 64-bit step wraps. Otherwise the spot
   * target is the largest permitted one and on-demand takes the rest.
   */
  lemma AllocateIsLargestPermitted(total: Int32, policy: AllocationPolicy)
    ensures Validate(total, policy).Invalid? ==>
              Allocate(total, policy) == Rejected(Validate(total, policy).error)
    ensures Validate(total, policy).Valid? ==> Allocate(total, policy).Ok?
    ensures Validate(total, policy).Valid? ==>
              var a := Allocate(total, policy).allocation;
              && a.totalReplicas == total == a.targetOnDemand + a.targetSpot
              && a.effectiveOnDemandFloor == Min(policy.minOnDemand, total) <= a.targetOnDemand
              && Permitted(a.targetSpot, total, policy)
              && forall s :: Permitted(s, total, policy) ==> s <= a.targetSpot
  {
    if Validate(total, policy).Valid? {
      ProductBound(total, policy.spotPercentage);
      var product := total * policy.spotPercentage;
      assert Wrap64(product) == product;
      var a := Allocate(total, policy).allocation;
      forall s | Permitted(s, total, policy) ensures s <= a.targetSpot {
        QuotientIsLargest(total * policy.spotPercentage, s);
      }
    }
  }

  lemma PercentageStep(total: int, percentage: int)
    requires total >= 0 && 0 <= percentage <= 100
    ensures 0 <= (total + 1) * percentage == total * percentage + percentage
    ensures 0 <= total * percentage
    ensures 0 <= Quotient((total + 1) * percentage, 100) - Quotient(total * percentage, 100) <= 1
  {
  }

  /** Scaling a workload by one replica moves exactly one target, by exactly one. */
  lemma OneMoreReplica(total: Int32, policy: AllocationPolicy)
    requires total < MAX_INT32
    requires Validate(total, policy).Valid?
    ensures Allocate(total, policy).Ok? && Allocate(total + 1, policy).Ok?
    ensures var a, b := Allocate(total, policy).allocation, Allocate(total + 1, policy).allocation;
            || (b.targetSpot == a.targetSpot + 1 && b.targetOnDemand == a.targetOnDemand)
            || (b.targetSpot == a.targetSpot && b.targetOnDemand == a.targetOnDemand + 1)
  {
    AllocateIsLargestPermitted(total, policy);
    AllocateIsLargestPermitted(total + 1, policy);
    PercentageStep(total, policy.spotPercentage);
    ProductBound(total, policy.spotPercentage);
    ProductBound(total + 1, policy.spotPercentage);
  }

  /** What is refused, and for what reason, in the order of the checks. */
  lemma RefusedExactly(total: Int32, policy: AllocationPolicy)
    ensures Allocate(total, policy).Ok? <==>
              total >= 0 && policy.minOnDemand >= 0 && 0 <= policy.spotPercentage <= 100
    ensures Allocate(total, policy) == Rejected(NegativeTotal(total)) <==> total < 0
    ensures Allocate(total, policy) == Rejected(NegativeFloor(policy.minOnDemand)) <==>
              total >= 0 && policy.minOnDemand < 0
    ensures Allocate(total, policy) == Rejected(PercentageOutOfRange(policy.spotPercentage)) <==>
              total >= 0 && policy.minOnDemand >= 0 && !(0 <= policy.spotPercentage <= 100)
  {
    AllocateIsLargestPermitted(total, policy);
  }
}
