/**
 * internal/annotations/disruption_window.go: whether a time lies in a disruption window, found with
 * a single question to the schedule.
 */
module DisruptionWindow {

  /** The next firing strictly after a time; Go answers the zero time when there is none. */
  datatype Firing = NoFiring | At(time: int)

  /** A parsed window: the schedule's Next, and how long each firing opens the window. */
  datatype Window = NoWindow | Window(next: int -> Firing, duration: int)

  /** IsWithinWindow: always, if no window is configured. */
  predicate IsWithinWindow(w: Window, t: int) {
    match w
    case NoWindow => true
    case Window(next, duration) =>
      var firing := next(t - duration);
      firing.At? && firing.time <= t < firing.time + duration
  }

  /** `next` answers with the least firing strictly after its argument, if there is one. */
  ghost predicate IsNext(next: int -> Firing, fires: int -> bool) {
    forall t :: match next(t)
                case At(f) => t < f && fires(f) && forall g :: t < g < f ==> !fires(g)
                case NoFiring => forall g :: t < g ==> !fires(g)
  }

  /**
   * The single probe is exact: it succeeds just when some firing opened a window that is still
   * open, also when windows overlap or the duration is zero or negative.
   */
  lemma SingleProbeIsExact(next: int -> Firing, duration: int, fires: int -> bool, t: int)
    requires IsNext(next, fires)
    ensures IsWithinWindow(Window(next, duration), t) <==> exists f :: fires(f) && f <= t < f + duration
  {
    var firing := next(t - duration);
    if firing.At? && firing.time <= t {
      assert fires(firing.time);
    }
  }
}
