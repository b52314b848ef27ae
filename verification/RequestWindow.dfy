/**
 * The sliding window behind the request rate of pkg/apis/runtime_state.go: what the buffer of
 * request times is for, and the loops that keep it so. Times are nanoseconds.
 */
module RequestWindow {
  import opened GoInt

  const MINUTE := 60_000_000_000
  const MAX_ENTRIES := 1000

  predicate Sorted(s: seq<int>) {
    forall i, j :: 0 <= i < j < |s| ==> s[i] <= s[j]
  }

  /** How many of the first `n` times are `from` or later. */
  function CountTo(s: seq<int>, from: int, n: nat): (k: nat)
    requires n <= |s|
    ensures k <= n
  {
    if n == 0 then 0 else CountTo(s, from, n - 1) + (if s[n - 1] >= from then 1 else 0)
  }

  function CountSince(s: seq<int>, from: int): (k: nat)
    ensures k <= |s|
  {
    CountTo(s, from, |s|)
  }

  /** How many entries the window that ends at `now` has: the minute's requests, 1000 at most. */
  function WindowSize(log: seq<int>, now: int): (k: nat)
    ensures k <= |log| && k <= MAX_ENTRIES
  {
    Min(MAX_ENTRIES, CountSince(log, now - MINUTE))
  }

  /** What the buffer is for: the newest 1000 of the requests of the minute that ends at `now`. */
  function Window(log: seq<int>, now: int): seq<int> {
    log[|log| - WindowSize(log, now)..]
  }

  /** The buffer after these requests: the window that ends at the last of them. */
  function Buffered(log: seq<int>): seq<int> {
    if log == [] then [] else Window(log, log[|log| - 1])
  }

  /** The log is in order and not ahead of the clock, and the buffer is what it should be. */
  ghost predicate Recorded(times: seq<int>, log: seq<int>, clock: int) {
    && Sorted(log)
    && (log != [] ==> log[|log| - 1] <= clock)
    && times == Buffered(log)
  }

  lemma RecordedLater(times: seq<int>, log: seq<int>, clock: int, later: int)
    requires Recorded(times, log, clock) && clock <= later
    ensures Recorded(times, log, later)
  {
  }

  /** In a sorted list the times since `from` are the last ones. */
  lemma {:induction false} SinceIsSuffix(s: seq<int>, from: int, n: nat)
    requires Sorted(s) && n <= |s|
    ensures forall i :: 0 <= i < n ==> (s[i] >= from <==> i >= n - CountTo(s, from, n))
  {
    if n > 0 {
      SinceIsSuffix(s, from, n - 1);
      if s[n - 1] < from && n > 1 {
        assert s[n - 2] <= s[n - 1];
      }
    }
  }

  /** Where a sorted list crosses `from` tells how much of it is since then. */
  lemma CountFromIndex(s: seq<int>, from: int, k: nat)
    requires Sorted(s) && k <= |s|
    requires k < |s| ==> s[k] >= from
    requires k > 0 ==> s[k - 1] < from
    ensures CountSince(s, from) == |s| - k
  {
    SinceIsSuffix(s, from, |s|);
  }

  lemma CountAtLeast(s: seq<int>, from: int, k: nat)
    requires Sorted(s) && k < |s| && s[k] >= from
    ensures CountSince(s, from) >= |s| - k
  {
    SinceIsSuffix(s, from, |s|);
  }

  lemma {:induction false} CountOfPrefix(log: seq<int>, now: int, from: int, n: nat)
    requires n <= |log|
    ensures CountTo(log + [now], from, n) == CountTo(log, from, n)
  {
    if n > 0 {
      CountOfPrefix(log, now, from, n - 1);
    }
  }

  /** An earlier time counts more. */
  lemma {:induction false} CountShrinks(s: seq<int>, from: int, later: int, n: nat)
    requires from <= later && n <= |s|
    ensures CountTo(s, later, n) <= CountTo(s, from, n)
  {
    if n > 0 {
      CountShrinks(s, from, later, n - 1);
    }
  }

  lemma SortedSuffix(s: seq<int>, k: nat)
    requires Sorted(s) && k <= |s|
    ensures Sorted(s[k..])
  {
    forall i, j | 0 <= i < j < |s| - k ensures s[k..][i] <= s[k..][j] {
      assert s[k + i] <= s[k + j];
    }
  }

  lemma SortedWith(log: seq<int>, now: int)
    requires Sorted(log)
    requires log != [] ==> log[|log| - 1] <= now
    ensures Sorted(log + [now])
  {
    forall i | 0 <= i < |log| ensures log[i] <= now {
      assert i < |log| - 1 ==> log[i] <= log[|log| - 1];
    }
  }

  /** Of the last times, as many are since `from` as of all of them, up to their number. */
  lemma CountOfSuffix(s: seq<int>, from: int, k: nat)
    requires Sorted(s) && k <= |s|
    ensures CountSince(s[k..], from) == Min(|s| - k, CountSince(s, from))
  {
    var c := CountSince(s, from);
    var cut := if |s| - c > k then |s| - c - k else 0;
    SinceIsSuffix(s, from, |s|);
    SortedSuffix(s, k);
    CountFromIndex(s[k..], from, cut);
  }

  /**
   * The numbers behind a recorded request: if trimming stops `j` entries into what the window of
   * before left and the new request, what is left is the new window, but for the cap.
   */
  lemma SizeMovesOn(log: seq<int>, before: int, now: int, j: nat)
    requires Sorted(log + [now]) && before <= now && j <= WindowSize(log, before)
    requires var k := |log| - WindowSize(log, before) + j;
             (log + [now])[k] >= now - MINUTE && (j > 0 ==> (log + [now])[k - 1] < now - MINUTE)
    ensures Min(MAX_ENTRIES, WindowSize(log, before) + 1 - j) == WindowSize(log + [now], now)
  {
    var all := log + [now];
    var k := |log| - WindowSize(log, before) + j;
    if j > 0 {
      CountFromIndex(all, now - MINUTE, k);
    } else {
      CountAtLeast(all, now - MINUTE, k);
      CountOfPrefix(log, now, now - MINUTE, |log|);
      CountShrinks(log, before - MINUTE, now - MINUTE, |log|);
    }
  }

  /** The loop that trims what is before the cutoff; the last entry never is. */
  method DropOlder(times: seq<int>, cutoff: int) returns (kept: seq<int>, ghost j: nat)
    requires times != [] && times[|times| - 1] >= cutoff
    ensures j < |times| && kept == times[j..]
    ensures times[j] >= cutoff && (j > 0 ==> times[j - 1] < cutoff)
  {
    kept, j := times, 0;
    while |kept| > 0 && kept[0] < cutoff
      invariant j < |times| && kept == times[j..]
      invariant j > 0 ==> times[j - 1] < cutoff
      decreases |kept|
    {
      kept, j := kept[1..], j + 1;
    }
  }

  /** The cap: the newest 1000 entries. */
  method Cap(times: seq<int>) returns (r: seq<int>)
    ensures r == times[|times| - Min(MAX_ENTRIES, |times|)..]
  {
    r := times;
    if |r| > MAX_ENTRIES {
      r := r[|r| - MAX_ENTRIES..];
    }
  }

  lemma SuffixOfSuffix(s: seq<int>, a: nat, b: nat)
    requires a <= |s| && b <= |s| - a
    ensures s[a..][b..] == s[a + b..]
  {
  }

  /** How the window moves on when a request is recorded: what is too old drops out, then the cap. */
  lemma WindowMoves(log: seq<int>, before: int, now: int, buffer: seq<int>, j: nat)
    requires Sorted(log + [now]) && before <= now && j < |buffer|
    requires buffer == (log + [now])[|log| - WindowSize(log, before)..]
    requires buffer[j] >= now - MINUTE && (j > 0 ==> buffer[j - 1] < now - MINUTE)
    ensures buffer[j..][|buffer| - j - Min(MAX_ENTRIES, |buffer| - j)..] == Window(log + [now], now)
  {
    var all, start := log + [now], |log| - WindowSize(log, before);
    SizeMovesOn(log, before, now, j);
    SuffixOfSuffix(all, start, j);
    SuffixOfSuffix(all, start + j, |buffer| - j - Min(MAX_ENTRIES, |buffer| - j));
  }

  lemma AppendToSuffix(log: seq<int>, k: nat, now: int)
    requires k <= |log|
    ensures log[k..] + [now] == (log + [now])[k..]
  {
  }

  /** The window with one more request: appended, trimmed, capped. */
  method Extend(times: seq<int>, now: int, ghost log: seq<int>, ghost before: int) returns (r: seq<int>)
    requires Sorted(log + [now]) && before <= now && times == Window(log, before)
    ensures r == Window(log + [now], now)
  {
    AppendToSuffix(log, |log| - WindowSize(log, before), now);
    var buffer := times + [now];
    var kept, j := DropOlder(buffer, now - MINUTE);
    WindowMoves(log, before, now, buffer, j);
    r := Cap(kept);
  }

  /** When the last request was recorded; now, if none was. */
  function LastOr(log: seq<int>, now: int): int {
    if log == [] then now else log[|log| - 1]
  }

  lemma WindowAtLast(log: seq<int>, now: int)
    ensures Window(log, LastOr(log, now)) == Buffered(log)
  {
    if log == [] {
      assert WindowSize(log, now) == 0;
    }
  }

  lemma RecordedNow(r: seq<int>, log: seq<int>, now: int)
    requires Sorted(log + [now]) && r == Window(log + [now], now)
    ensures Recorded(r, log + [now], now)
  {
    assert LastOr(log + [now], 0) == now;
    WindowAtLast(log + [now], 0);
  }

  /** Recording a request in the buffer. */
  method Record(times: seq<int>, now: int, ghost log: seq<int>, ghost clock: int) returns (r: seq<int>)
    requires Recorded(times, log, clock) && clock <= now
    ensures Recorded(r, log + [now], now)
  {
    SortedWith(log, now);
    WindowAtLast(log, now);
    r := Extend(times, now, log, LastOr(log, now));
    RecordedNow(r, log, now);
  }

  /** The loop that counts what is strictly after the cutoff. */
  method CountAfter(times: seq<int>, cutoff: int) returns (n: nat)
    ensures n == CountSince(times, cutoff + 1)
  {
    n := 0;
    for i := 0 to |times|
      invariant n == CountTo(times, cutoff + 1, i)
    {
      if times[i] > cutoff {
        n := n + 1;
      }
    }
  }

  /** The buffer holds every request of a later minute, up to its capacity. */
  lemma RecentOfWindow(log: seq<int>, last: int, now: int)
    requires Sorted(log) && last <= now
    ensures CountSince(Window(log, last), now - MINUTE + 1) == Min(MAX_ENTRIES, CountSince(log, now - MINUTE + 1))
  {
    CountOfSuffix(log, now - MINUTE + 1, |log| - WindowSize(log, last));
    CountShrinks(log, last - MINUTE, now - MINUTE + 1, |log|);
  }

  /** The buffer holds what was recorded in the last sixty seconds, the last thousand of it at most. */
  lemma BufferedIsLastMinute(log: seq<int>, i: nat)
    requires Sorted(log) && i < |log| && |log| - i <= 1000
    ensures var first := |log| - |Buffered(log)|;
            i >= first <==> log[i] >= log[|log| - 1] - 60_000_000_000
    ensures |Buffered(log)| <= 1000 && Buffered(log) == log[|log| - |Buffered(log)|..]
  {
    SinceIsSuffix(log, log[|log| - 1] - MINUTE, |log|);
  }
}
