/**
 * Admissions that go through SelectAndReserve, in every interleaving with pods being observed,
 * pods going away, generation changes, resets and cleanup.
 */
module AdmissionRace {
  import opened GoInt
  import opened Observation
  import opened AdmissionTracker

  /** A pod the webhook placed, with the workload it belongs to. */
  datatype Placed = Placed(key: string, uid: int)

  /** The pods of one class: those that exist, and those whose reservation the tracker still counts. */
  datatype Pods = Pods(live: set<Placed>, reserved: set<Placed>)

  /**
   * The tracker and the pods placed on each class. Which pods are reserved is bookkeeping: the
   * tracker itself keeps only numbers.
   */
  datatype World = World(pending: Pending, spot: Pods, onDemand: Pods)

  datatype Event =
    /** One admission, with the pods of each class in the snapshot the webhook passes in. */
    | Admit(pod: Placed, generation: int, seenSpot: set<Placed>, seenOnDemand: set<Placed>,
            targetSpot: Int32, targetOnDemand: Int32, now: int)
    | PodListed(key: string, version: string, generation: int, now: int)
    | Vanish(pod: Placed)
    | Reset(key: string, generation: int, now: int)
    | Cleanup(ttl: int, now: int)

  ghost function Of(pods: set<Placed>, key: string): set<Placed> {
    set p | p in pods && p.key == key
  }

  ghost function RequestOf(e: Event): Request
    requires e.Admit?
  {
    Request(e.pod.key, e.generation, |e.seenSpot|, |e.seenOnDemand|, e.targetSpot, e.targetOnDemand)
  }

  ghost predicate EntryIsCurrent(pending: Pending, key: string, generation: int) {
    key in pending && pending[key].generation == generation
  }

  /** The reservations an admission still finds: none if its workload's generation has moved on. */
  ghost function Kept(pending: Pending, reserved: set<Placed>, key: string, generation: int): set<Placed> {
    if EntryIsCurrent(pending, key, generation) then reserved else reserved - Of(reserved, key)
  }

  ghost function Next(w: World, e: Event): World {
    match e
    case Admit(pod, generation, _, _, _, _, now) =>
      var r := RequestOf(e);
      var spot := w.spot.(reserved := Kept(w.pending, w.spot.reserved, pod.key, generation));
      var onDemand := w.onDemand.(reserved := Kept(w.pending, w.onDemand.reserved, pod.key, generation));
      if Choice(w.pending, r) == Spot
      then World(AfterSelect(w.pending, r, now), With(spot, pod), onDemand)
      else World(AfterSelect(w.pending, r, now), spot, With(onDemand, pod))
    case PodListed(key, version, generation, now) =>
      w.(pending := AfterPodList(w.pending, key, version, generation, now))
    case Vanish(pod) =>
      World(w.pending, w.spot.(live := w.spot.live - {pod}), w.onDemand.(live := w.onDemand.live - {pod}))
    case Reset(key, generation, now) =>
      World(AfterReset(w.pending, key, generation, now), Without(w.spot, key), Without(w.onDemand, key))
    case Cleanup(ttl, now) =>
      var pending := AfterCleanup(w.pending, ttl, now);
      World(pending, Tracked(w.spot, pending), Tracked(w.onDemand, pending))
  }

  /** A pod that vanishes leaves only the live pods; its reservation stays until it is cleaned up. */
  lemma VanishingPod(w: World, pod: Placed)
    ensures var after := Next(w, Vanish(pod));
            && after.pending == w.pending
            && after.spot == Pods(w.spot.live - {pod}, w.spot.reserved)
            && after.onDemand == Pods(w.onDemand.live - {pod}, w.onDemand.reserved)
  {
  }

  ghost function With(pods: Pods, pod: Placed): Pods {
    Pods(pods.live + {pod}, pods.reserved + {pod})
  }

  ghost function Without(pods: Pods, key: string): Pods {
    pods.(reserved := pods.reserved - Of(pods.reserved, key))
  }

  ghost function Tracked(pods: Pods, pending: Pending): Pods {
    pods.(reserved := set p | p in pods.reserved && p.key in pending)
  }

  /** A pod is admitted once: its UID is never seen again. */
  ghost predicate Enabled(w: World, e: Event) {
    e.Admit? ==>
      && e.pod !in w.spot.live && e.pod !in w.spot.reserved
      && e.pod !in w.onDemand.live && e.pod !in w.onDemand.reserved
  }

  ghost predicate IsRun(worlds: seq<World>, events: seq<Event>) {
    && |worlds| == |events| + 1
    && worlds[0].pending == map[] && worlds[0].spot.reserved == {} && worlds[0].onDemand.reserved == {}
    && forall i :: 0 <= i < |events| ==> Enabled(worlds[i], events[i]) && worlds[i + 1] == Next(worlds[i], events[i])
  }

  /** A class's counters, read off an entry, are its reserved pods counted in 32 bits. */
  ghost predicate Counted(pending: Pending, kind: Capacity, reserved: set<Placed>) {
    && (forall k :: k in pending ==> CounterOf(pending[k], kind) == Wrap32(|Of(reserved, k)|))
    && (forall p :: p in reserved ==> p.key in pending)
  }

  ghost function CounterOf(e: PendingAdmission, kind: Capacity): Int32 {
    if kind == Spot then e.spot else e.onDemand
  }

  ghost predicate Inv(w: World) {
    && Counted(w.pending, Spot, w.spot.reserved)
    && Counted(w.pending, OnDemand, w.onDemand.reserved)
    && forall k :: |Of(w.spot.reserved, k)| <= MAX_INT32
  }

  lemma OfAdd(pods: set<Placed>, pod: Placed, key: string)
    ensures Of(pods + {pod}, key) == if pod.key == key then Of(pods, key) + {pod} else Of(pods, key)
  {
  }

  lemma OfRemove(pods: set<Placed>, gone: string, key: string)
    ensures Of(pods - Of(pods, gone), key) == if gone == key then {} else Of(pods, key)
  {
  }

  lemma SubsetSize(a: set<Placed>, b: set<Placed>)
    requires a <= b
    ensures |a| <= |b|
  {
    assert b == a + (b - a);
  }

  lemma UnionSize(a: set<Placed>, b: set<Placed>)
    ensures |a + b| <= |a| + |b|
    ensures a !! b ==> |a + b| == |a| + |b|
  {
    SubsetSize(a * b, a + b);
  }

  lemma WrapStep(n: nat)
    ensures Wrap32(Wrap32(n) + 1) == Wrap32(n + 1)
  {
  }

  /** Renewing a stale entry forgets its workload's reservations and no others. */
  lemma RenewKeepsCount(pending: Pending, kind: Capacity, reserved: set<Placed>, key: string, generation: int)
    requires Counted(pending, kind, reserved)
    ensures var kept := Kept(pending, reserved, key, generation);
            && Counted(pending[key := EntryFor(pending, key, generation)], kind, kept)
            && kept <= reserved
  {
    var kept := Kept(pending, reserved, key, generation);
    var renewed := pending[key := EntryFor(pending, key, generation)];
    forall k | k in renewed ensures CounterOf(renewed[k], kind) == Wrap32(|Of(kept, k)|) {
      OfRemove(reserved, key, k);
    }
  }

  lemma CounterAfterReserve(e: PendingAdmission, kind: Capacity, chosen: Capacity, now: int)
    requires kind != Unknown && chosen != Unknown
    ensures CounterOf(Reserve(e, chosen, now), kind)
         == if chosen == kind then Wrap32(CounterOf(e, kind) + 1) else CounterOf(e, kind)
  {
  }

  lemma OfAddSize(pods: set<Placed>, pod: Placed, key: string)
    requires pod !in pods
    ensures |Of(pods + {pod}, key)| == |Of(pods, key)| + (if pod.key == key then 1 else 0)
  {
    OfAdd(pods, pod, key);
    assert pod !in Of(pods, key);
  }

  /** A reservation of one class moves that class's counter of its workload, and no other counter. */
  lemma ReserveKeepsCount(
      pending: Pending, kind: Capacity, reserved: set<Placed>, pod: Placed, chosen: Capacity, now: int)
    requires Counted(pending, kind, reserved) && pod.key in pending && pod !in reserved
    requires kind != Unknown && chosen != Unknown
    ensures var after := pending[pod.key := Reserve(pending[pod.key], chosen, now)];
            Counted(after, kind, if chosen == kind then reserved + {pod} else reserved)
  {
    CounterAfterReserve(pending[pod.key], kind, chosen, now);
    if chosen == kind {
      WrapStep(|Of(reserved, pod.key)|);
      forall k {
        OfAddSize(reserved, pod, k);
      }
    }
  }

  /** The spot counter an admission reads does not wrap: it is the number of reservations it finds. */
  lemma FoundSpot(w: World, key: string, generation: int)
    requires Inv(w)
    ensures |Of(Kept(w.pending, w.spot.reserved, key, generation), key)| == EntryFor(w.pending, key, generation).spot
  {
    RenewKeepsCount(w.pending, Spot, w.spot.reserved, key, generation);
    var kept := Kept(w.pending, w.spot.reserved, key, generation);
    SubsetSize(Of(kept, key), Of(w.spot.reserved, key));
    assert EntryFor(w.pending, key, generation)
        == w.pending[key := EntryFor(w.pending, key, generation)][key];
  }

  lemma FoundOnDemand(w: World, key: string, generation: int)
    requires Inv(w)
    ensures EntryFor(w.pending, key, generation).onDemand
         == Wrap32(|Of(Kept(w.pending, w.onDemand.reserved, key, generation), key)|)
         <= |Of(Kept(w.pending, w.onDemand.reserved, key, generation), key)|
  {
    RenewKeepsCount(w.pending, OnDemand, w.onDemand.reserved, key, generation);
    assert EntryFor(w.pending, key, generation)
        == w.pending[key := EntryFor(w.pending, key, generation)][key];
  }

  lemma AdmitKeepsSpotSmall(w: World, e: Event)
    requires Inv(w) && Enabled(w, e) && e.Admit?
    ensures forall k :: |Of(Next(w, e).spot.reserved, k)| <= MAX_INT32
  {
    var key := e.pod.key;
    var kept := Kept(w.pending, w.spot.reserved, key, e.generation);
    FoundSpot(w, key, e.generation);
    forall k ensures |Of(Next(w, e).spot.reserved, k)| <= MAX_INT32 {
      SubsetSize(Of(kept, k), Of(w.spot.reserved, k));
      OfAdd(kept, e.pod, k);
    }
  }

  lemma AdmitKeepsInv(w: World, e: Event)
    requires Inv(w) && Enabled(w, e) && e.Admit?
    ensures Inv(Next(w, e))
  {
    var key := e.pod.key;
    var entry := EntryFor(w.pending, key, e.generation);
    var renewed := w.pending[key := entry];
    var kind := Choice(w.pending, RequestOf(e));
    RenewKeepsCount(w.pending, Spot, w.spot.reserved, key, e.generation);
    RenewKeepsCount(w.pending, OnDemand, w.onDemand.reserved, key, e.generation);
    ReserveKeepsCount(renewed, Spot, Kept(w.pending, w.spot.reserved, key, e.generation), e.pod, kind, e.now);
    ReserveKeepsCount(renewed, OnDemand, Kept(w.pending, w.onDemand.reserved, key, e.generation), e.pod, kind, e.now);
    assert AfterSelect(w.pending, RequestOf(e), e.now) == renewed[key := Reserve(entry, kind, e.now)];
    AdmitKeepsSpotSmall(w, e);
  }

  lemma PodListKeepsCount(w: World, kind: Capacity, reserved: set<Placed>, e: Event)
    requires Counted(w.pending, kind, reserved) && e.PodListed?
    ensures Counted(AfterPodList(w.pending, e.key, e.version, e.generation, e.now), kind, reserved)
  {
    if e.key !in w.pending {
      assert Of(reserved, e.key) == {};
    }
  }

  lemma ResetKeepsCount(w: World, kind: Capacity, pods: Pods, e: Event)
    requires Counted(w.pending, kind, pods.reserved) && e.Reset?
    ensures Counted(AfterReset(w.pending, e.key, e.generation, e.now), kind, Without(pods, e.key).reserved)
  {
    forall k {
      OfRemove(pods.reserved, e.key, k);
    }
  }

  lemma CleanupKeepsCount(w: World, kind: Capacity, pods: Pods, e: Event)
    requires Counted(w.pending, kind, pods.reserved) && e.Cleanup?
    ensures var pending := AfterCleanup(w.pending, e.ttl, e.now);
            Counted(pending, kind, Tracked(pods, pending).reserved)
  {
    var pending := AfterCleanup(w.pending, e.ttl, e.now);
    forall k | k in pending
      ensures Of(Tracked(pods, pending).reserved, k) == Of(pods.reserved, k)
    {
    }
  }

  lemma StepKeepsInv(w: World, e: Event)
    requires Inv(w) && Enabled(w, e)
    ensures Inv(Next(w, e))
  {
    match e {
      case Admit(_, _, _, _, _, _, _) =>
        AdmitKeepsInv(w, e);
      case PodListed(_, _, _, _) =>
        PodListKeepsCount(w, Spot, w.spot.reserved, e);
        PodListKeepsCount(w, OnDemand, w.onDemand.reserved, e);
      case Vanish(_) =>
      case Reset(_, _, _) =>
        ResetKeepsCount(w, Spot, w.spot, e);
        ResetKeepsCount(w, OnDemand, w.onDemand, e);
        FewerReserved(w, e);
      case Cleanup(_, _) =>
        CleanupKeepsCount(w, Spot, w.spot, e);
        CleanupKeepsCount(w, OnDemand, w.onDemand, e);
        FewerReserved(w, e);
    }
  }

  lemma FewerReserved(w: World, e: Event)
    requires Inv(w) && !e.Admit?
    ensures forall k :: |Of(Next(w, e).spot.reserved, k)| <= MAX_INT32
  {
    forall k ensures |Of(Next(w, e).spot.reserved, k)| <= MAX_INT32 {
      SubsetSize(Of(Next(w, e).spot.reserved, k), Of(w.spot.reserved, k));
    }
  }

  lemma {:induction false} RunKeepsInv(worlds: seq<World>, events: seq<Event>, i: nat)
    requires IsRun(worlds, events) && i < |worlds|
    ensures Inv(worlds[i])
  {
    if i > 0 {
      RunKeepsInv(worlds, events, i - 1);
      StepKeepsInv(worlds[i - 1], events[i - 1]);
      assert worlds[i - 1 + 1] == Next(worlds[i - 1], events[i - 1]);
    } else {
      assert forall k :: Of(worlds[0].spot.reserved, k) == {};
    }
  }

  // The spot target.

  /** The live spot pods of an admission's workload are no more than those it is told of or finds reserved. */
  ghost predicate Accounted(w: World, e: Event)
    requires e.Admit?
  {
    var key := e.pod.key;
    |Of(w.spot.live, key)| <= |e.seenSpot| + |Of(Kept(w.pending, w.spot.reserved, key, e.generation), key)|
  }

  /**
   * In every interleaving, with on-demand at its target in effective terms: whatever the spot
   * target is, choosing spot keeps the live spot pods within it, if and only if they are accounted
   * for in number.
   */
  lemma WithinEverySpotTargetIffAccounted(worlds: seq<World>, events: seq<Event>, i: nat)
    requires IsRun(worlds, events) && i < |events| && events[i].Admit?
    requires var r := RequestOf(events[i]);
             r.observedOnDemand + EntryFor(worlds[i].pending, r.key, r.generation).onDemand >= r.targetOnDemand
    ensures var w, r := worlds[i], RequestOf(events[i]);
            (forall t: int :: Choice(w.pending, r.(targetSpot := t)) == Spot ==> |Of(w.spot.live, r.key)| + 1 <= t)
            <==> Accounted(w, events[i])
  {
    var w, e, r := worlds[i], events[i], RequestOf(events[i]);
    RunKeepsInv(worlds, events, i);
    FoundSpot(w, r.key, r.generation);
    var effective := r.observedSpot + EntryFor(w.pending, r.key, r.generation).spot;
    if !Accounted(w, e) {
      assert Choice(w.pending, r.(targetSpot := effective + 1)) == Spot;
    }
  }

  /** At the decision each live spot pod of the workload is in the snapshot or still reserved. */
  ghost predicate Covered(w: World, e: Event)
    requires e.Admit?
  {
    var key := e.pod.key;
    Of(w.spot.live, key) <= e.seenSpot + Of(Kept(w.pending, w.spot.reserved, key, e.generation), key)
  }

  lemma CoveredIsAccounted(w: World, e: Event)
    requires e.Admit? && Covered(w, e)
    ensures Accounted(w, e)
  {
    var key := e.pod.key;
    var kept := Of(Kept(w.pending, w.spot.reserved, key, e.generation), key);
    SubsetSize(Of(w.spot.live, key), e.seenSpot + kept);
    UnionSize(e.seenSpot, kept);
  }

  /**
   * In every interleaving, an admission that chooses spot while the live spot pods are accounted
   * for, as they are when each is seen or reserved, leaves no more of them than its target.
   */
  lemma NoOvershoot(worlds: seq<World>, events: seq<Event>, i: nat)
    requires IsRun(worlds, events) && i < |events|
    requires events[i].Admit? && Choice(worlds[i].pending, RequestOf(events[i])) == Spot
    requires Covered(worlds[i], events[i]) || Accounted(worlds[i], events[i])
    ensures |Of(worlds[i + 1].spot.live, events[i].pod.key)| <= events[i].targetSpot
    ensures worlds[i + 1].spot.live == worlds[i].spot.live + {events[i].pod}
  {
    var w, e := worlds[i], events[i];
    if Covered(w, e) {
      CoveredIsAccounted(w, e);
    }
    WithinEverySpotTargetIffAccounted(worlds, events, i);
    assert RequestOf(e).(targetSpot := e.targetSpot) == RequestOf(e);
    assert worlds[i + 1] == Next(w, e);
    OfAdd(w.spot.live, e.pod, e.pod.key);
  }

  // Instances: runs of two admissions from an empty tracker.

  ghost function Empty(): World {
    World(map[], Pods({}, {}), Pods({}, {}))
  }

  lemma AdmitLives(w: World, e: Event)
    requires e.Admit?
    ensures Next(w, e).spot.live
         == if Choice(w.pending, RequestOf(e)) == Spot then w.spot.live + {e.pod} else w.spot.live
    ensures Next(w, e).onDemand.live
         == if Choice(w.pending, RequestOf(e)) == Spot then w.onDemand.live else w.onDemand.live + {e.pod}
    ensures Next(w, e).pending == AfterSelect(w.pending, RequestOf(e), e.now)
    ensures Next(w, e).spot.reserved <= w.spot.reserved + {e.pod}
    ensures Next(w, e).onDemand.reserved <= w.onDemand.reserved + {e.pod}
  {
  }

  lemma TwoAdmissionsRun(first: Event, second: Event)
    requires first.Admit? && second.Admit? && first.pod != second.pod
    ensures IsRun([Empty(), Next(Empty(), first), Next(Next(Empty(), first), second)], [first, second])
  {
    var w1 := Next(Empty(), first);
    AdmitLives(Empty(), first);
    assert Enabled(Empty(), first) && Enabled(w1, second);
  }

  /** A generation change between them hides the first reservation from the second admission. */
  lemma LaggingPods(p: Placed, q: Placed)
    requires p.key == q.key
    ensures var w := Next(Next(Empty(), Admit(p, 1, {}, {}, 1, 0, 0)), Admit(q, 2, {}, {}, 1, 0, 0));
            w.spot.live == {p, q}
  {
    var first, second := Admit(p, 1, {}, {}, 1, 0, 0), Admit(q, 2, {}, {}, 1, 0, 0);
    AdmitLives(Empty(), first);
    AdmitLives(Next(Empty(), first), second);
  }

  /** With a snapshot that lags behind a generation change, two pods go to spot under a target of one. */
  lemma LaggingSnapshotOvershoots()
    ensures exists first: Event, second: Event ::
              && IsRun([Empty(), Next(Empty(), first), Next(Next(Empty(), first), second)], [first, second])
              && first.Admit? && second.Admit? && first.targetSpot == second.targetSpot == 1
              && |Next(Next(Empty(), first), second).spot.live| == 2
  {
    var p, q := Placed("w", 1), Placed("w", 2);
    LaggingPods(p, q);
    TwoAdmissionsRun(Admit(p, 1, {}, {}, 1, 0, 0), Admit(q, 2, {}, {}, 1, 0, 0));
  }

  // The on-demand floor.

  /**
   * In every interleaving, with spot short: whatever the on-demand target is, a pod goes to spot
   * only with that many on-demand pods alive, if and only if what the tracker takes for on-demand
   * pods, the seen and the reserved together, is not more than are alive.
   */
  lemma RawFloorIff(worlds: seq<World>, events: seq<Event>, i: nat)
    requires IsRun(worlds, events) && i < |events| && events[i].Admit?
    requires var r := RequestOf(events[i]);
             r.observedSpot + EntryFor(worlds[i].pending, r.key, r.generation).spot < r.targetSpot
    ensures var w, r := worlds[i], RequestOf(events[i]);
            var kept := Of(Kept(w.pending, w.onDemand.reserved, r.key, r.generation), r.key);
            (forall t: int :: Choice(w.pending, r.(targetOnDemand := t)) == Spot ==> t <= |Of(w.onDemand.live, r.key)|)
            <==> |events[i].seenOnDemand| + Wrap32(|kept|) <= |Of(w.onDemand.live, r.key)|
  {
    var w, r := worlds[i], RequestOf(events[i]);
    RunKeepsInv(worlds, events, i);
    FoundOnDemand(w, r.key, r.generation);
    var effective := r.observedOnDemand + EntryFor(w.pending, r.key, r.generation).onDemand;
    assert Choice(w.pending, r.(targetOnDemand := effective)) == Spot;
  }

  /** No on-demand pod is both seen and reserved, and none of either kind has vanished. */
  ghost predicate SeenOrReservedOnce(w: World, e: Event)
    requires e.Admit?
  {
    var key := e.pod.key;
    var kept := Of(Kept(w.pending, w.onDemand.reserved, key, e.generation), key);
    e.seenOnDemand !! kept && e.seenOnDemand + kept <= Of(w.onDemand.live, key)
  }

  /** Then a spot choice leaves at least the target of on-demand pods alive. */
  lemma RawFloorKept(worlds: seq<World>, events: seq<Event>, i: nat)
    requires IsRun(worlds, events) && i < |events|
    requires events[i].Admit? && Choice(worlds[i].pending, RequestOf(events[i])) == Spot
    requires SeenOrReservedOnce(worlds[i], events[i])
    ensures |Of(worlds[i + 1].onDemand.live, events[i].pod.key)| >= events[i].targetOnDemand
  {
    var w, e := worlds[i], events[i];
    var key := e.pod.key;
    var kept := Of(Kept(w.pending, w.onDemand.reserved, key, e.generation), key);
    UnionSize(e.seenOnDemand, kept);
    SubsetSize(e.seenOnDemand + kept, Of(w.onDemand.live, key));
    assert Wrap32(|kept|) <= |kept|;
    RawFloorIff(worlds, events, i);
    assert RequestOf(e).(targetOnDemand := e.targetOnDemand) == RequestOf(e);
    assert worlds[i + 1] == Next(w, e);
  }

  lemma TwicePods(p: Placed, q: Placed)
    requires p.key == q.key
    ensures var w := Next(Next(Empty(), Admit(p, 1, {}, {}, 1, 2, 0)), Admit(q, 1, {}, {p}, 1, 2, 0));
            w.onDemand.live == {p} && w.spot.live == {q}
  {
    var first, second := Admit(p, 1, {}, {}, 1, 2, 0), Admit(q, 1, {}, {p}, 1, 2, 0);
    AdmitLives(Empty(), first);
    AdmitLives(Next(Empty(), first), second);
  }

  /** One pod seen and still reserved counts twice: spot is chosen with one on-demand pod of two wanted. */
  lemma SeenAndReservedCountsTwice()
    ensures exists first: Event, second: Event ::
              && IsRun([Empty(), Next(Empty(), first), Next(Next(Empty(), first), second)], [first, second])
              && first.Admit? && second.Admit? && first.targetOnDemand == second.targetOnDemand == 2
              && |Next(Next(Empty(), first), second).onDemand.live| == 1
              && |Next(Next(Empty(), first), second).spot.live| == 1
  {
    var p, q := Placed("w", 1), Placed("w", 2);
    TwicePods(p, q);
    TwoAdmissionsRun(Admit(p, 1, {}, {}, 1, 2, 0), Admit(q, 1, {}, {p}, 1, 2, 0));
  }
}
