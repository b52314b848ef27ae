/**
 * pkg/webhook/admission_state.go: reservations for pods that were admitted but are not observed yet.
 * Every method runs under the tracker's lock, so each is one atomic step; the clock is a parameter.
 */
module AdmissionTracker {
  import opened GoInt
  import opened Observation
  import opened GoTime

  const DEFAULT_TTL := 30_000_000_000
  const POD_LIST_MAX_AGE := 5_000_000_000

  datatype PendingAdmission = PendingAdmission(
    spot: Int32,
    onDemand: Int32,
    lastUpdated: Stamp,
    generation: int,
    podListVersion: string,
    podListTime: Stamp)

  type Pending = map<string, PendingAdmission>

  datatype Staleness = NotStale | GenerationChanged | PodListTooOld

  function Blank(generation: int): PendingAdmission {
    PendingAdmission(0, 0, Never, generation, "", Never)
  }

  /** The entry a reservation is added to: a blank one unless the generation still matches. */
  function EntryFor(pending: Pending, key: string, generation: int): PendingAdmission {
    if key in pending && pending[key].generation == generation then pending[key] else Blank(generation)
  }

  function Reserve(e: PendingAdmission, kind: Capacity, now: int): PendingAdmission {
    if kind == Spot then e.(spot := Wrap32(e.spot + 1), lastUpdated := At(now))
    else e.(onDemand := Wrap32(e.onDemand + 1), lastUpdated := At(now))
  }

  /** GetPendingCounts as (spot, on-demand). */
  function PendingCounts(pending: Pending, key: string, generation: int): (Int32, Int32) {
    var e := EntryFor(pending, key, generation);
    (e.spot, e.onDemand)
  }

  function AfterIncrement(pending: Pending, key: string, kind: Capacity, generation: int, now: int): Pending {
    pending[key := Reserve(EntryFor(pending, key, generation), kind, now)]
  }

  /** What a decision is about: a workload at a generation, its observed counts and its targets. */
  datatype Request = Request(
    key: string, generation: int, observedSpot: int, observedOnDemand: int, targetSpot: int, targetOnDemand: int)

  /** SelectAndReserve's choice. */
  function Choice(pending: Pending, r: Request): Capacity {
    var e := EntryFor(pending, r.key, r.generation);
    if r.observedOnDemand + e.onDemand >= r.targetOnDemand && r.observedSpot + e.spot < r.targetSpot
    then Spot else OnDemand
  }

  function AfterSelect(pending: Pending, r: Request, now: int): Pending {
    AfterIncrement(pending, r.key, Choice(pending, r), r.generation, now)
  }

  /** UpdatePodListMetadata; an entry of another generation is kept as it is. */
  function AfterPodList(pending: Pending, key: string, version: string, generation: int, now: int): Pending {
    var e := if key in pending then pending[key] else Blank(generation);
    pending[key := e.(podListVersion := version, podListTime := At(now), lastUpdated := At(now))]
  }

  function AfterReset(pending: Pending, key: string, generation: int, now: int): Pending {
    pending[key := PendingAdmission(0, 0, At(now), generation, "", At(now))]
  }

  predicate Expired(e: PendingAdmission, ttl: int, now: int) {
    e.lastUpdated.Never? || now - e.lastUpdated.time > ttl
  }

  function AfterCleanup(pending: Pending, ttl: int, now: int): Pending {
    map k | k in pending && !Expired(pending[k], ttl, now) :: pending[k]
  }

  class AdmissionStateTracker {
    var pending: Pending
    const ttl: int

    constructor (ttl: int)
      ensures pending == map[]
      ensures this.ttl == if ttl <= 0 then 30_000_000_000 else ttl
    {
      pending := map[];
      this.ttl := if ttl <= 0 then DEFAULT_TTL else ttl;
    }

    method GetPendingCounts(key: string, currentGeneration: int) returns (spot: Int32, onDemand: Int32)
      ensures (spot, onDemand) == PendingCounts(pending, key, currentGeneration)
    {
      if key !in pending {
        return 0, 0;
      }
      var p := pending[key];
      if p.generation != currentGeneration {
        return 0, 0;
      }
      return p.spot, p.onDemand;
    }

    method IncrementPending(key: string, kind: Capacity, generation: int, now: int)
      modifies this`pending
      ensures pending == AfterIncrement(old(pending), key, kind, generation, now)
    {
      if key !in pending || pending[key].generation != generation {
        pending := pending[key := Blank(generation)];
      }
      var p := pending[key];
      if kind == Spot {
        p := p.(spot := Wrap32(p.spot + 1));
      } else {
        p := p.(onDemand := Wrap32(p.onDemand + 1));
      }
      pending := pending[key := p.(lastUpdated := At(now))];
    }

    method SelectAndReserve(r: Request, now: int) returns (kind: Capacity)
      modifies this`pending
      ensures kind == Choice(old(pending), r)
      ensures pending == AfterSelect(old(pending), r, now)
    {
      if r.key !in pending || pending[r.key].generation != r.generation {
        pending := pending[r.key := Blank(r.generation)];
      }
      var p := pending[r.key];
      kind := OnDemand;
      if r.observedOnDemand + p.onDemand >= r.targetOnDemand && r.observedSpot + p.spot < r.targetSpot {
        kind := Spot;
      }
      if kind == Spot {
        p := p.(spot := Wrap32(p.spot + 1));
      } else {
        p := p.(onDemand := Wrap32(p.onDemand + 1));
      }
      pending := pending[r.key := p.(lastUpdated := At(now))];
    }

    method Cleanup(now: int)
      modifies this`pending
      ensures pending == AfterCleanup(old(pending), ttl, now)
    {
      var keys := pending.Keys;
      while keys != {}
        invariant keys <= old(pending).Keys
        invariant pending
               == map k | k in old(pending) && (k in keys || !Expired(old(pending)[k], ttl, now)) :: old(pending)[k]
        decreases keys
      {
        var key :| key in keys;
        if Expired(pending[key], ttl, now) {
          pending := pending - {key};
        }
        keys := keys - {key};
      }
    }

    method CheckStaleness(key: string, currentGeneration: int, now: int) returns (s: Staleness)
      ensures s == NotStale <==>
                (key in pending ==>
                  && pending[key].generation == currentGeneration
                  && (pending[key].podListTime.At? ==> now - pending[key].podListTime.time <= 5_000_000_000))
      ensures s == GenerationChanged <==> key in pending && pending[key].generation != currentGeneration
    {
      if key !in pending {
        return NotStale;
      }
      var p := pending[key];
      if p.generation != currentGeneration {
        return GenerationChanged;
      }
      if p.podListTime.At? && now - p.podListTime.time > POD_LIST_MAX_AGE {
        return PodListTooOld;
      }
      return NotStale;
    }

    method UpdatePodListMetadata(key: string, version: string, generation: int, now: int)
      modifies this`pending
      ensures pending == AfterPodList(old(pending), key, version, generation, now)
    {
      if key !in pending {
        pending := pending[key := Blank(generation)];
      }
      var p := pending[key];
      p := p.(podListVersion := version, podListTime := At(now));
      pending := pending[key := p.(lastUpdated := At(now))];
    }

    method ResetPending(key: string, newGeneration: int, now: int)
      modifies this`pending
      ensures pending == AfterReset(old(pending), key, newGeneration, now)
    {
      pending := pending[key := PendingAdmission(0, 0, At(now), newGeneration, "", At(now))];
    }
  }

  /** A reservation outlives a cleanup exactly until it is older than the TTL; others stay as they are. */
  lemma CleanupByAge(
      pending: Pending, key: string, kind: Capacity, generation: int, reserved: int, ttl: int, now: int)
    ensures var after := AfterIncrement(pending, key, kind, generation, reserved);
            var cleaned := AfterCleanup(after, ttl, now);
            && (key in cleaned <==> now - reserved <= ttl)
            && (forall k :: k in cleaned ==> k in after && cleaned[k] == after[k])
  {
  }

  /** What SelectAndReserve weighs: observed and reserved pods of the same generation, against both targets. */
  lemma ChoiceWeighs(pending: Pending, r: Request)
    ensures var known := r.key in pending && pending[r.key].generation == r.generation;
            var spot := r.observedSpot + (if known then pending[r.key].spot else 0);
            var onDemand := r.observedOnDemand + (if known then pending[r.key].onDemand else 0);
            && (Choice(pending, r) == Spot <==> spot < r.targetSpot && onDemand >= r.targetOnDemand)
            && (Choice(pending, r) == OnDemand <==> spot >= r.targetSpot || onDemand < r.targetOnDemand)
  {
  }

  /**
   * What a reservation changes: one count of one workload by one, in 32 bits, and when it was updated; on
   * an entry of another generation it starts over, with no pod list seen.
   */
  lemma ReservationChanges(pending: Pending, key: string, kind: Capacity, generation: int, now: int)
    requires kind != Unknown
    ensures var after := AfterIncrement(pending, key, kind, generation, now);
            var e := after[key];
            && after.Keys == pending.Keys + {key}
            && (forall k :: k in pending && k != key ==> after[k] == pending[k])
            && e.generation == generation && e.lastUpdated == At(now)
            && (if key in pending && pending[key].generation == generation then
                  && e.spot == Wrap32(pending[key].spot + (if kind == Spot then 1 else 0))
                  && e.onDemand == Wrap32(pending[key].onDemand + (if kind == OnDemand then 1 else 0))
                  && e.podListVersion == pending[key].podListVersion && e.podListTime == pending[key].podListTime
                else
                  && e.spot == (if kind == Spot then 1 else 0)
                  && e.onDemand == (if kind == OnDemand then 1 else 0)
                  && e.podListVersion == [] && e.podListTime == Never)
  {
  }

  /** What listing pods and resetting change: never a count, and all of an entry, respectively. */
  lemma ListingAndResetting(pending: Pending, key: string, version: string, generation: int, now: int)
    ensures var listed := AfterPodList(pending, key, version, generation, now);
            var reset := AfterReset(pending, key, generation, now);
            && listed.Keys == reset.Keys == pending.Keys + {key}
            && (forall k :: k in pending && k != key ==> listed[k] == reset[k] == pending[k])
            && listed[key].podListVersion == version
            && listed[key].podListTime == listed[key].lastUpdated == At(now)
            && (listed[key].spot, listed[key].onDemand, listed[key].generation)
               == (if key in pending then (pending[key].spot, pending[key].onDemand, pending[key].generation)
                   else (0, 0, generation))
            && reset[key] == PendingAdmission(0, 0, At(now), generation, [], At(now))
  {
  }
}
