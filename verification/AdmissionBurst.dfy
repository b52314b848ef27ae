/** A burst of admissions through SelectAndReserve against one snapshot. */
module AdmissionBurst {
  import opened GoInt
  import opened Policy
  import opened Observation
  import opened AdmissionTracker

  /** The tracker after one reservation at each of the given times. */
  ghost function Burst(pending: Pending, r: Request, times: seq<int>): Pending {
    if times == [] then pending
    else
      var last := |times| - 1;
      AfterSelect(Burst(pending, r, times[..last]), r, times[last])
  }

  ghost function OnDemandDeficit(r: Request): nat {
    Max(0, r.targetOnDemand - r.observedOnDemand)
  }

  ghost function SpotDeficit(r: Request): nat {
    Max(0, r.targetSpot - r.observedSpot)
  }

  /** Of `n` reservations, those that fall after the on-demand deficit and within the spot deficit. */
  ghost function SpotShare(n: nat, r: Request): nat {
    Max(0, Min(n - OnDemandDeficit(r), SpotDeficit(r)))
  }

  /**
   * From no reservations, n of them fill the on-demand deficit, then the spot deficit, and then all
   * go on-demand; the two counters always add up to n.
   */
  lemma {:induction false} BurstClosedForm(pending: Pending, r: Request, times: seq<int>)
    requires PendingCounts(pending, r.key, r.generation) == (0, 0)
    requires |times| <= MAX_INT32
    ensures var n := |times|;
            var counts := PendingCounts(Burst(pending, r, times), r.key, r.generation);
            && counts.0 == SpotShare(n, r)
            && counts.0 + counts.1 == n
            && (Choice(Burst(pending, r, times), r) == Spot
                <==> OnDemandDeficit(r) <= n < OnDemandDeficit(r) + SpotDeficit(r))
  {
    if times != [] {
      BurstClosedForm(pending, r, times[..|times| - 1]);
    }
  }

  /**
   * A burst that fills a workload with neither class in excess lands exactly on both targets of
   * the allocation.
   */
  lemma BurstLandsOnTargets(
      pending: Pending, key: string, generation: int, total: Int32, policy: AllocationPolicy, a: Allocation,
      spot: nat, onDemand: nat, times: seq<int>)
    requires Allocate(total, policy) == Ok(a)
    requires spot <= a.targetSpot && onDemand <= a.targetOnDemand
    requires |times| == total - spot - onDemand
    requires PendingCounts(pending, key, generation) == (0, 0)
    ensures var r := Request(key, generation, spot, onDemand, a.targetSpot, a.targetOnDemand);
            var counts := PendingCounts(Burst(pending, r, times), key, generation);
            spot + counts.0 == a.targetSpot && onDemand + counts.1 == a.targetOnDemand
  {
    AllocateIsLargestPermitted(total, policy);
    BurstClosedForm(pending, Request(key, generation, spot, onDemand, a.targetSpot, a.targetOnDemand), times);
  }
}
