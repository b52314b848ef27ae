/**
 * The webhook's older path (pkg/webhook/mutate.go): it reads the pending counts, decides, and then
 * increments, as separate steps, so several admissions can decide from the same counts. Pod counts,
 * targets and generation are fixed here, and nothing is stale or cleaned up.
 */
module SplitAdmission {
  import opened GoInt
  import opened Observation
  import opened Placement
  import opened AdmissionTracker
  import opened AdmissionBurst

  datatype Event =
    /** An admission lists the pods: UpdatePodListMetadata. */
    | PodListed(version: string, now: int)
    /** An admission reads the counts and decides. */
    | Begin
    /** The admission at this position among those in flight makes its reservation. */
    | Finish(position: nat, now: int)

  /** `inFlight` are decisions not reserved yet, `made` those reserved, in order. */
  datatype State = State(pending: Pending, inFlight: seq<Capacity>, made: seq<Capacity>)

  /** The decision of mutate.go: floor-first over observed plus pending. */
  function Decide(pending: Pending, r: Request): Capacity {
    var (spot, onDemand) := PendingCounts(pending, r.key, r.generation);
    FloorFirst(r.observedSpot + spot, r.observedOnDemand + onDemand, r.targetSpot, r.targetOnDemand)
  }

  /** The read and the decision of one admission, as mutate.go makes them on the tracker object. */
  method DecideFromTracker(tracker: AdmissionStateTracker, r: Request) returns (kind: Capacity)
    ensures kind == Choice(tracker.pending, r)
  {
    var pendingSpot, pendingOnDemand := tracker.GetPendingCounts(r.key, r.generation);
    var effectiveSpot := r.observedSpot + pendingSpot;
    var effectiveOnDemand := r.observedOnDemand + pendingOnDemand;
    if effectiveOnDemand < r.targetOnDemand {
      return OnDemand;
    }
    if effectiveSpot < r.targetSpot {
      return Spot;
    }
    return OnDemand;
  }

  ghost predicate Enabled(s: State, e: Event) {
    e.Finish? ==> e.position < |s.inFlight|
  }

  ghost function Next(s: State, e: Event, r: Request): State
    requires Enabled(s, e)
  {
    match e
    case PodListed(version, now) => s.(pending := AfterPodList(s.pending, r.key, version, r.generation, now))
    case Begin => s.(inFlight := s.inFlight + [Decide(s.pending, r)])
    case Finish(i, now) =>
      var kind := s.inFlight[i];
      State(AfterIncrement(s.pending, r.key, kind, r.generation, now),
            s.inFlight[..i] + s.inFlight[i + 1..],
            s.made + [kind])
  }

  /** A run in which never more than `k` admissions are in flight. */
  ghost predicate IsRun(s: State, events: seq<Event>, r: Request, k: nat)
    decreases |events|
  {
    && |s.inFlight| <= k
    && (events != [] ==> Enabled(s, events[0]) && IsRun(Next(s, events[0], r), events[1..], r, k))
  }

  ghost function Exec(s: State, events: seq<Event>, r: Request, k: nat): State
    requires IsRun(s, events, r, k)
    decreases |events|
  {
    if events == [] then s else Exec(Next(s, events[0], r), events[1..], r, k)
  }

  ghost function Spots(kinds: seq<Capacity>): (n: nat)
    ensures n <= |kinds|
  {
    if kinds == [] then 0 else (if kinds[0] == Spot then 1 else 0) + Spots(kinds[1..])
  }

  lemma {:induction false} SpotsSplits(a: seq<Capacity>, b: seq<Capacity>)
    ensures Spots(a + b) == Spots(a) + Spots(b)
  {
    if a == [] {
      assert a + b == b;
    } else {
      assert (a + b)[1..] == a[1..] + b;
      SpotsSplits(a[1..], b);
    }
  }

  lemma {:induction false} SpotsWithout(kinds: seq<Capacity>, i: nat)
    requires i < |kinds|
    ensures Spots(kinds[..i] + kinds[i + 1..]) + (if kinds[i] == Spot then 1 else 0) == Spots(kinds)
  {
    var without := kinds[..i] + kinds[i + 1..];
    if i == 0 {
      assert without == kinds[1..];
    } else {
      var rest := kinds[1..];
      assert without[1..] == rest[..i - 1] + rest[i..];
      SpotsWithout(rest, i - 1);
    }
  }

  ghost predicate Current(pending: Pending, r: Request) {
    r.key in pending ==> pending[r.key].generation == r.generation
  }

  /** The number of spot reservations that can be reached with k in flight. */
  ghost function Bound(r: Request, k: nat): int {
    if SpotDeficit(r) == 0 then 0 else SpotDeficit(r) + k - 1
  }

  /** The counter counts the spot reservations, and with those decided they stay within the bound. */
  ghost predicate Inv(s: State, r: Request, k: nat) {
    && Current(s.pending, r)
    && PendingCounts(s.pending, r.key, r.generation).0 == Spots(s.made)
    && Spots(s.made) + Spots(s.inFlight) <= Bound(r, k)
  }

  lemma StepKeepsInv(s: State, e: Event, r: Request, k: nat)
    requires Enabled(s, e) && Inv(s, r, k)
    requires |Next(s, e, r).inFlight| <= k
    requires Bound(r, k) <= MAX_INT32
    ensures Inv(Next(s, e, r), r, k)
  {
    match e {
      case PodListed(_, _) =>
      case Begin =>
        SpotsSplits(s.inFlight, [Decide(s.pending, r)]);
      case Finish(i, _) =>
        SpotsWithout(s.inFlight, i);
        SpotsSplits(s.made, [s.inFlight[i]]);
    }
  }

  lemma {:induction false} RunKeepsInv(s: State, events: seq<Event>, r: Request, k: nat)
    requires IsRun(s, events, r, k) && Inv(s, r, k) && Bound(r, k) <= MAX_INT32
    ensures Inv(Exec(s, events, r, k), r, k)
    decreases |events|
  {
    if events != [] {
      StepKeepsInv(s, events[0], r, k);
      RunKeepsInv(Next(s, events[0], r), events[1..], r, k);
    }
  }

  ghost predicate Start(s: State, r: Request) {
    && Current(s.pending, r)
    && PendingCounts(s.pending, r.key, r.generation) == (0, 0)
    && s.inFlight == [] && s.made == []
  }

  /**
   * With at most k admissions in flight, no run reserves more than k - 1 spot pods beyond the spot
   * deficit, and none at all when there is no deficit.
   */
  lemma OvershootBound(s: State, events: seq<Event>, r: Request, k: nat)
    requires k >= 1 && IsRun(s, events, r, k) && Start(s, r) && Bound(r, k) <= MAX_INT32
    ensures Spots(Exec(s, events, r, k).made) <= Bound(r, k)
  {
    RunKeepsInv(s, events, r, k);
  }

  // The bound is reached: the on-demand deficit and all but one of the spot deficit one by one, then k
  // admissions at once.

  ghost function Alone(n: nat): seq<Event> {
    if n == 0 then [] else [Begin, Finish(0, 0)] + Alone(n - 1)
  }

  ghost function Begins(n: nat): seq<Event> {
    if n == 0 then [] else [Begin] + Begins(n - 1)
  }

  ghost function Finishes(n: nat): seq<Event> {
    if n == 0 then [] else [Finish(0, 0)] + Finishes(n - 1)
  }

  /** A state with the on-demand target met, `made` spot reservations and only spot in flight. */
  ghost predicate AllSpot(s: State, r: Request, made: nat, inFlight: nat) {
    && r.observedOnDemand + PendingCounts(s.pending, r.key, r.generation).1 >= r.targetOnDemand
    && PendingCounts(s.pending, r.key, r.generation).0 == made == Spots(s.made)
    && |s.inFlight| == inFlight && forall i :: 0 <= i < inFlight ==> s.inFlight[i] == Spot
  }

  lemma BeginSpot(s: State, r: Request, made: nat, inFlight: nat)
    requires AllSpot(s, r, made, inFlight) && made < SpotDeficit(r)
    ensures AllSpot(Next(s, Begin, r), r, made, inFlight + 1)
  {
  }

  lemma FinishSpot(s: State, r: Request, made: nat, inFlight: nat)
    requires AllSpot(s, r, made, inFlight) && inFlight > 0 && made < MAX_INT32
    ensures AllSpot(Next(s, Finish(0, 0), r), r, made + 1, inFlight - 1)
  {
    SpotsSplits(s.made, [Spot]);
  }

  lemma {:induction false} RunFinishes(s: State, r: Request, made: nat, inFlight: nat, k: nat)
    requires AllSpot(s, r, made, inFlight) && inFlight <= k && made + inFlight <= MAX_INT32
    ensures IsRun(s, Finishes(inFlight), r, k)
    ensures Spots(Exec(s, Finishes(inFlight), r, k).made) == made + inFlight
    decreases inFlight
  {
    if inFlight > 0 {
      FinishSpot(s, r, made, inFlight);
      assert Finishes(inFlight)[1..] == Finishes(inFlight - 1);
      RunFinishes(Next(s, Finish(0, 0), r), r, made + 1, inFlight - 1, k);
    }
  }

  lemma {:induction false} RunBegins(s: State, r: Request, made: nat, inFlight: nat, n: nat, k: nat)
    requires AllSpot(s, r, made, inFlight) && inFlight + n <= k && made < SpotDeficit(r)
    requires made + inFlight + n <= MAX_INT32
    ensures var events := Begins(n) + Finishes(inFlight + n);
            IsRun(s, events, r, k) && Spots(Exec(s, events, r, k).made) == made + inFlight + n
    decreases n
  {
    var events := Begins(n) + Finishes(inFlight + n);
    if n == 0 {
      assert events == Finishes(inFlight);
      RunFinishes(s, r, made, inFlight, k);
    } else {
      BeginSpot(s, r, made, inFlight);
      assert events[1..] == Begins(n - 1) + Finishes(inFlight + 1 + (n - 1));
      RunBegins(Next(s, Begin, r), r, made, inFlight + 1, n - 1, k);
    }
  }

  ghost predicate Reaches(s: State, events: seq<Event>, r: Request, k: nat) {
    IsRun(s, events, r, k) && Spots(Exec(s, events, r, k).made) == Bound(r, k)
  }

  /** One admission before everything else. */
  lemma AloneThen(s: State, tail: seq<Event>, r: Request, k: nat)
    requires k >= 1 && s.inFlight == [] && Reaches(Next(Next(s, Begin, r), Finish(0, 0), r), tail, r, k)
    ensures Reaches(s, [Begin, Finish(0, 0)] + tail, r, k)
  {
    var events := [Begin, Finish(0, 0)] + tail;
    var later := [Finish(0, 0)] + tail;
    assert events[1..] == later && later[1..] == tail;
    assert IsRun(Next(s, Begin, r), later, r, k);
  }

  lemma AloneFirst(s: State, n: nat, tail: seq<Event>, r: Request, k: nat)
    requires k >= 1 && n > 0 && s.inFlight == []
    requires Reaches(Next(Next(s, Begin, r), Finish(0, 0), r), Alone(n - 1) + tail, r, k)
    ensures Reaches(s, Alone(n) + tail, r, k)
  {
    assert Alone(n) + tail == [Begin, Finish(0, 0)] + (Alone(n - 1) + tail);
    AloneThen(s, Alone(n - 1) + tail, r, k);
  }

  lemma AdmitSpot(s: State, r: Request, made: nat)
    requires AllSpot(s, r, made, 0) && made < SpotDeficit(r) && made < MAX_INT32
    ensures AllSpot(Next(Next(s, Begin, r), Finish(0, 0), r), r, made + 1, 0)
  {
    BeginSpot(s, r, made, 0);
    FinishSpot(Next(s, Begin, r), r, made, 1);
  }

  lemma {:induction false} RunAlone(s: State, r: Request, made: nat, n: nat, k: nat, crowd: seq<Event>)
    requires AllSpot(s, r, made, 0) && k >= 1 && made + n == SpotDeficit(r) - 1 && Bound(r, k) <= MAX_INT32
    requires crowd == Begins(k) + Finishes(k)
    ensures Reaches(s, Alone(n) + crowd, r, k)
    decreases n
  {
    if n == 0 {
      assert Alone(0) + crowd == Begins(k) + Finishes(0 + k);
      RunBegins(s, r, made, 0, k, k);
    } else {
      AdmitSpot(s, r, made);
      RunAlone(Next(Next(s, Begin, r), Finish(0, 0), r), r, made + 1, n - 1, k, crowd);
      AloneFirst(s, n, crowd, r, k);
    }
  }

  /** A state with `made` on-demand reservations and nothing else. */
  ghost predicate Filling(s: State, r: Request, made: nat) {
    && s.inFlight == [] && Spots(s.made) == 0
    && PendingCounts(s.pending, r.key, r.generation) == (0, made)
  }

  lemma AdmitOnDemand(s: State, r: Request, made: nat)
    requires Filling(s, r, made) && made < OnDemandDeficit(r) && made < MAX_INT32
    ensures Filling(Next(Next(s, Begin, r), Finish(0, 0), r), r, made + 1)
  {
    var begun := Next(s, Begin, r);
    assert begun.inFlight == [OnDemand];
    SpotsSplits(s.made, [OnDemand]);
  }

  lemma Filled(s: State, r: Request, k: nat, tail: seq<Event>)
    requires Filling(s, r, OnDemandDeficit(r)) && k >= 1 && SpotDeficit(r) > 0 && Bound(r, k) <= MAX_INT32
    requires tail == Alone(SpotDeficit(r) - 1) + (Begins(k) + Finishes(k))
    ensures Reaches(s, Alone(0) + tail, r, k)
  {
    assert Alone(0) + tail == tail;
    RunAlone(s, r, 0, SpotDeficit(r) - 1, k, Begins(k) + Finishes(k));
  }

  lemma {:induction false} RunFill(s: State, r: Request, made: nat, n: nat, k: nat, tail: seq<Event>)
    requires Filling(s, r, made) && k >= 1 && made + n == OnDemandDeficit(r) <= MAX_INT32
    requires forall t: State :: Filling(t, r, OnDemandDeficit(r)) ==> Reaches(t, Alone(0) + tail, r, k)
    ensures Reaches(s, Alone(n) + tail, r, k)
    decreases n
  {
    if n > 0 {
      AdmitOnDemand(s, r, made);
      RunFill(Next(Next(s, Begin, r), Finish(0, 0), r), r, made + 1, n - 1, k, tail);
      AloneFirst(s, n, tail, r, k);
    }
  }

  /** Whenever spot is short, some run reaches the bound. */
  lemma OvershootBoundIsReached(s: State, r: Request, k: nat)
    requires k >= 1 && Start(s, r) && SpotDeficit(r) > 0
    requires Bound(r, k) <= MAX_INT32 && OnDemandDeficit(r) <= MAX_INT32
    ensures exists events :: IsRun(s, events, r, k) && Spots(Exec(s, events, r, k).made) == Bound(r, k)
  {
    var tail := Alone(SpotDeficit(r) - 1) + (Begins(k) + Finishes(k));
    forall t: State | Filling(t, r, OnDemandDeficit(r)) ensures Reaches(t, Alone(0) + tail, r, k) {
      Filled(t, r, k, tail);
    }
    RunFill(s, r, 0, OnDemandDeficit(r), k, tail);
    assert Reaches(s, Alone(OnDemandDeficit(r)) + tail, r, k);
  }

  // One admission at a time.

  /** The same events with each reservation made by SelectAndReserve, as it finishes. */
  ghost function AtomicExec(pending: Pending, made: seq<Capacity>, events: seq<Event>, r: Request)
    : (Pending, seq<Capacity>)
    decreases |events|
  {
    if events == [] then (pending, made)
    else match events[0]
      case PodListed(version, now) =>
        AtomicExec(AfterPodList(pending, r.key, version, r.generation, now), made, events[1..], r)
      case Begin => AtomicExec(pending, made, events[1..], r)
      case Finish(_, now) =>
        AtomicExec(AfterSelect(pending, r, now), made + [Choice(pending, r)], events[1..], r)
  }

  lemma DecideIsChoice(pending: Pending, r: Request)
    ensures Decide(pending, r) == Choice(pending, r)
  {
  }

  lemma PodListKeepsChoice(pending: Pending, r: Request, version: string, now: int)
    requires Current(pending, r)
    ensures Choice(AfterPodList(pending, r.key, version, r.generation, now), r) == Choice(pending, r)
    ensures Current(AfterPodList(pending, r.key, version, r.generation, now), r)
  {
  }

  /**
   * With one admission in flight at a time the read-then-increment code refines SelectAndReserve:
   * the same choices in the same order, and the same tracker.
   */
  lemma {:induction false} OneAtATimeIsAtomic(s: State, events: seq<Event>, r: Request)
    requires IsRun(s, events, r, 1) && Current(s.pending, r)
    requires s.inFlight != [] ==> s.inFlight[0] == Choice(s.pending, r)
    ensures (Exec(s, events, r, 1).pending, Exec(s, events, r, 1).made) == AtomicExec(s.pending, s.made, events, r)
    decreases |events|
  {
    if events != [] {
      var next := Next(s, events[0], r);
      DecideIsChoice(s.pending, r);
      match events[0] {
        case PodListed(version, now) => PodListKeepsChoice(s.pending, r, version, now);
        case Begin =>
        case Finish(_, _) => assert next.inFlight == [];
      }
      OneAtATimeIsAtomic(next, events[1..], r);
    }
  }
}
