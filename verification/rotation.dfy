/** The rotation hook: which of `itemCount` leagues is shown, whether the
    display auto-advances, and how far the current interval has elapsed.

    React state setters become pure transition functions on `State`; the
    clock (`Date.now`) is the explicit parameter `now`, and the start of the
    current interval is kept in `startTime`. The two timers of the hook become
    the events `Fire` (the advance timer) and `ProgressTick` (the 100 ms
    progress timer), each of which does nothing unless the timers run.
 */
module Rotation {

  /** The hook's options; `interval` is in milliseconds. */
  datatype Options = Options(itemCount: nat, interval: nat, autoStart: bool, loop: bool)

  /** The hook's state; `progress` is a percentage. */
  datatype State = State(index: nat, isPlaying: bool, progress: real, startTime: int)

  const DefaultInterval: nat := 20000

  /** The options the hook uses when the caller leaves them out. */
  function DefaultOptions(itemCount: nat): (o: Options)
    ensures o.itemCount == itemCount
    ensures o.interval == 20000 && o.autoStart && o.loop
  {
    Options(itemCount, DefaultInterval, true, true)
  }

  /** The index is a valid position, or 0 when there is nothing to show. */
  predicate InRange(o: Options, s: State)
  {
    if o.itemCount == 0 then s.index == 0 else s.index < o.itemCount
  }

  /** Whether the advance and progress timers run. */
  predicate AutoAdvancing(o: Options, s: State)
  {
    s.isPlaying && o.itemCount > 1
  }

  /** The state on mount: first item, playing iff `autoStart`, whatever the item count. */
  function Init(o: Options, now: int): (s: State)
    ensures s.index == 0 && s.progress == 0.0 && s.startTime == now
    ensures s.isPlaying == o.autoStart
  {
    State(0, o.autoStart, 0.0, now)
  }

  /** `nextItem`. */
  function NextItem(o: Options, s: State, now: int): (r: State)
    ensures o.itemCount == 0 ==> r == s
    ensures o.itemCount > 0 ==> r.progress == 0.0 && r.startTime == now
    ensures r.isPlaying == s.isPlaying
    ensures InRange(o, s) ==> InRange(o, r)
    ensures o.loop && s.index < o.itemCount ==> r.index == (s.index + 1) % o.itemCount
    ensures !o.loop && s.index < o.itemCount ==> r.index == if s.index + 1 < o.itemCount then s.index + 1 else s.index
  {
    if o.itemCount == 0 then s
    else
      var i := if s.index >= o.itemCount - 1 then (if o.loop then 0 else s.index) else s.index + 1;
      s.(index := i, progress := 0.0, startTime := now)
  }

  /** `previousItem`. */
  function PreviousItem(o: Options, s: State, now: int): (r: State)
    ensures o.itemCount == 0 ==> r == s
    ensures o.itemCount > 0 ==> r.progress == 0.0 && r.startTime == now
    ensures r.isPlaying == s.isPlaying
    ensures InRange(o, s) ==> InRange(o, r)
    ensures o.loop && s.index < o.itemCount ==> r.index == (s.index + o.itemCount - 1) % o.itemCount
    ensures !o.loop && o.itemCount > 0 ==> r.index == if s.index == 0 then 0 else s.index - 1
  {
    if o.itemCount == 0 then s
    else
      var i := if s.index <= 0 then (if o.loop then o.itemCount - 1 else 0) else s.index - 1;
      s.(index := i, progress := 0.0, startTime := now)
  }

  /** `goToItem`: out-of-range targets are ignored. */
  function GoToItem(o: Options, s: State, target: int, now: int): (r: State)
    ensures 0 <= target < o.itemCount ==> r == s.(index := target, progress := 0.0, startTime := now)
    ensures !(0 <= target < o.itemCount) ==> r == s
  {
    if 0 <= target < o.itemCount then s.(index := target, progress := 0.0, startTime := now) else s
  }

  /** `play`: nothing to rotate with at most one item. */
  function Play(o: Options, s: State, now: int): (r: State)
    ensures o.itemCount <= 1 ==> r == s
    ensures o.itemCount > 1 ==> r == s.(isPlaying := true, startTime := now)
    ensures o.itemCount > 1 ==> AutoAdvancing(o, r)
  {
    if o.itemCount <= 1 then s else s.(isPlaying := true, startTime := now)
  }

  /** `pause`: always stops, and the timers stop with it. */
  function Pause(o: Options, s: State): (r: State)
    ensures !r.isPlaying && !AutoAdvancing(o, r)
    ensures r.index == s.index && r.progress == s.progress && r.startTime == s.startTime
  {
    s.(isPlaying := false)
  }

  /** `reset`: back to the mount state. */
  function Reset(o: Options, s: State, now: int): (r: State)
    ensures r.index == 0 && r.progress == 0.0 && r.startTime == now
    ensures r.isPlaying == o.autoStart
  {
    State(0, o.autoStart, 0.0, now)
  }

  /** `updateProgress`: elapsed time as a percentage of the interval, capped at 100. */
  function ProgressPercent(elapsed: int, interval: nat): (p: real)
    requires interval > 0
    ensures p <= 100.0
    ensures elapsed >= 0 ==> 0.0 <= p
    ensures elapsed >= interval ==> p == 100.0
    ensures elapsed < interval ==> p * (interval as real) == (elapsed as real) * 100.0
  {
    var raw := (elapsed as real) / (interval as real) * 100.0;
    if raw < 100.0 then raw else 100.0
  }

  /** One tick of the 100 ms progress timer. */
  function ProgressTick(o: Options, s: State, now: int): (r: State)
    requires o.interval > 0
    ensures !AutoAdvancing(o, s) ==> r == s
    ensures AutoAdvancing(o, s) ==> r == s.(progress := ProgressPercent(now - s.startTime, o.interval))
  {
    if AutoAdvancing(o, s) then s.(progress := ProgressPercent(now - s.startTime, o.interval)) else s
  }

  /** One firing of the advance timer. */
  function Fire(o: Options, s: State, now: int): (r: State)
    ensures !AutoAdvancing(o, s) ==> r == s
    ensures AutoAdvancing(o, s) ==> r == NextItem(o, s, now)
  {
    if AutoAdvancing(o, s) then NextItem(o, s, now) else s
  }

  /** The effect that runs when the item count (or the index) changes:
      an index past the end goes back to the first item, not the last. */
  function CountChanged(o: Options, s: State, now: int): (r: State)
    ensures InRange(o, r)
    ensures s.index < o.itemCount ==> r.index == s.index
    ensures s.index >= o.itemCount ==> r.index == 0
    ensures r.progress == 0.0 && r.startTime == now && r.isPlaying == s.isPlaying
  {
    var i := if s.index >= o.itemCount then 0 else s.index;
    s.(index := i, progress := 0.0, startTime := now)
  }

  // ---------------------------------------------------------------------------
  // Events and traces
  // ---------------------------------------------------------------------------

  datatype Event =
    | Next | Previous | GoTo(target: int) | PlayEvent | PauseEvent | ResetEvent
    | TimerFired | ProgressTicked | ItemCountChanged(newCount: nat)

  /** The options after an event: only a count change alters them. */
  function OptionsAfter(o: Options, e: Event): Options
  {
    if e.ItemCountChanged? then o.(itemCount := e.newCount) else o
  }

  function Step(o: Options, s: State, e: Event, now: int): State
    requires o.interval > 0
  {
    match e
    case Next => NextItem(o, s, now)
    case Previous => PreviousItem(o, s, now)
    case GoTo(k) => GoToItem(o, s, k, now)
    case PlayEvent => Play(o, s, now)
    case PauseEvent => Pause(o, s)
    case ResetEvent => Reset(o, s, now)
    case TimerFired => Fire(o, s, now)
    case ProgressTicked => ProgressTick(o, s, now)
    case ItemCountChanged(n) => CountChanged(o.(itemCount := n), s, now)
  }

  /** Every event keeps the index in range for the options in force after it. */
  lemma StepInRange(o: Options, s: State, e: Event, now: int)
    requires o.interval > 0 && InRange(o, s)
    ensures InRange(OptionsAfter(o, e), Step(o, s, e, now))
    ensures s.progress <= 100.0 ==> Step(o, s, e, now).progress <= 100.0
  {
  }

  /** Running any trace of events from the mount state keeps the index in range
      and the progress at most 100. `times[k]` is the clock at event `k`. */
  function Run(o: Options, s: State, events: seq<Event>, times: seq<int>): (r: (Options, State))
    requires o.interval > 0 && |times| == |events|
    requires InRange(o, s) && s.progress <= 100.0
    ensures r.0.interval == o.interval
    ensures InRange(r.0, r.1) && r.1.progress <= 100.0
    decreases |events|
  {
    if |events| == 0 then (o, s)
    else
      StepInRange(o, s, events[0], times[0]);
      Run(OptionsAfter(o, events[0]), Step(o, s, events[0], times[0]), events[1..], times[1..])
  }

  // ---------------------------------------------------------------------------
  // Properties relating several calls
  // ---------------------------------------------------------------------------

  /** `nextItem` applied `k` times. */
  function NextN(o: Options, s: State, k: nat, now: int): State
  {
    if k == 0 then s else NextItem(o, NextN(o, s, k - 1, now), now)
  }

  lemma MulLowerBound(d: int, n: int)
    requires n > 0
    ensures d >= 1 ==> d * n >= n
  {
    if d >= 1 {
      assert d * n == (d - 1) * n + n;
    }
  }

  /** The only multiple of `n` strictly between `-n` and `n` is zero. */
  lemma ZeroMultiple(d: int, n: int)
    requires n > 0 && -n < d * n < n
    ensures d == 0
  {
    MulLowerBound(d, n);
    MulLowerBound(-d, n);
    assert (-d) * n == -(d * n);
  }

  /** Euclidean remainders are unique. */
  lemma ModUnique(x: int, n: int, q: int, r: int)
    requires n > 0 && 0 <= r < n && x == q * n + r
    ensures x % n == r
  {
    var q', r' := x / n, x % n;
    assert x == q' * n + r';
    assert (q - q') * n == r' - r;
    ZeroMultiple(q - q', n);
  }

  lemma ModSucc(a: nat, n: nat)
    requires n > 0
    ensures (a % n + 1) % n == (a + 1) % n
  {
    var q, r := a / n, a % n;
    assert a == q * n + r;
    if r + 1 < n {
      ModUnique(a + 1, n, q, r + 1);
      ModUnique(r + 1, n, 0, r + 1);
    } else {
      assert a + 1 == (q + 1) * n + 0;
      ModUnique(a + 1, n, q + 1, 0);
      ModUnique(r + 1, n, 1, 0);
    }
  }

  /** With looping, `k` steps forward land on `(index + k) mod itemCount`. */
  lemma {:induction false} NextNIndex(o: Options, s: State, k: nat, now: int)
    requires o.loop && s.index < o.itemCount
    ensures NextN(o, s, k, now).index == (s.index + k) % o.itemCount
  {
    if k == 0 {
      ModUnique(s.index, o.itemCount, 0, s.index);
    } else {
      NextNIndex(o, s, k - 1, now);
      ModSucc(s.index + k - 1, o.itemCount);
    }
  }

  /** With looping, `itemCount` steps forward come back to the starting item. */
  lemma FullCycle(o: Options, s: State, now: int)
    requires o.loop && s.index < o.itemCount
    ensures NextN(o, s, o.itemCount, now).index == s.index
  {
    NextNIndex(o, s, o.itemCount, now);
    ModUnique(s.index + o.itemCount, o.itemCount, 1, s.index);
  }

  /** With looping, `previousItem` undoes `nextItem` and vice versa. */
  lemma NextPreviousInverse(o: Options, s: State, now: int)
    requires o.loop && s.index < o.itemCount
    ensures PreviousItem(o, NextItem(o, s, now), now).index == s.index
    ensures NextItem(o, PreviousItem(o, s, now), now).index == s.index
  {
  }

  /** Without looping, the ends are sticky. */
  lemma NoLoopStopsAtEnds(o: Options, s: State, now: int)
    requires !o.loop && o.itemCount > 0
    ensures s.index == o.itemCount - 1 ==> NextItem(o, s, now).index == s.index
    ensures s.index == 0 ==> PreviousItem(o, s, now).index == 0
  {
  }

  /** `reset` is the mount state again. */
  lemma ResetIsInit(o: Options, s: State, now: int)
    ensures Reset(o, s, now) == Init(o, now)
  {
  }

  /** Playing is not tied to the item count: with `autoStart` and one item the
      hook reports playing, yet the timers never run and `play` changes nothing. */
  lemma PlayingWithOneItem(now: int)
    ensures var o := Options(1, DefaultInterval, true, true);
            Init(o, now).isPlaying && !AutoAdvancing(o, Init(o, now))
            && Play(o, Init(o, now), now) == Init(o, now)
  {
  }

  /** Shrinking below the current index returns to the first item, not the last. */
  lemma ShrinkGoesToFirst(now: int)
    ensures var s := State(4, true, 50.0, 0);
            CountChanged(Options(3, DefaultInterval, true, true), s, now).index == 0
  {
  }
}
