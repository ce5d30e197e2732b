/** The resize pacer of pty-resize.ts: at most one size per interval, never the size the PTY already
  * has, and always the last one asked for. */
module PtyResize {
  import opened Prelude

  const DEFAULT_COLUMNS := 80
  const DEFAULT_ROWS := 18
  const MAX_COLUMNS := 500
  const MAX_ROWS := 200
  const MIN_DIMENSION := 2
  const PTY_RESIZE_INTERVAL_MS := 50.0

  /** A JavaScript number; NaN and the infinities behave alike here. */
  datatype Number = Finite(value: real) | NotFinite

  datatype Size = Size(cols: int, rows: int)

  /** `Math.round`: halves go up. */
  function Round(x: real): int {
    (x + 0.5).Floor
  }

  function ClampInteger(value: Number, fallback: int, minimum: int, maximum: int): int {
    if value.NotFinite? then fallback else Min(maximum, Max(minimum, Round(value.value)))
  }

  function Clamp(cols: Number, rows: Number): Size {
    Size(ClampInteger(cols, DEFAULT_COLUMNS, MIN_DIMENSION, MAX_COLUMNS),
         ClampInteger(rows, DEFAULT_ROWS, MIN_DIMENSION, MAX_ROWS))
  }

  /** Every clamped size is one a PTY can have, and clamping it again changes nothing. `ClampsToNearest`
    * says which one it is. */
  lemma ClampSettles(cols: Number, rows: Number)
    ensures var s := Clamp(cols, rows);
      && MIN_DIMENSION <= s.cols <= MAX_COLUMNS && MIN_DIMENSION <= s.rows <= MAX_ROWS
      && Clamp(Finite(s.cols as real), Finite(s.rows as real)) == s
  {
    var s := Clamp(cols, rows);
    assert Round(s.cols as real) == s.cols && Round(s.rows as real) == s.rows;
  }

  function Interval(option: Option<Number>): real {
    if option.Some? && option.value.Finite? then (if option.value.value < 0.0 then 0.0 else option.value.value)
    else PTY_RESIZE_INTERVAL_MS
  }

  /** A timer: when it was set, by the pacer's clock, and for how long. */
  datatype Timer = Timer(armedAt: real, wait: real)

  /** `appliedAt` is `None` for minus infinity. */
  datatype State =
    State(applied: Option<Size>, appliedAt: Option<real>, pending: Option<Size>, timer: Option<Timer>, disposed: bool)

  function Spawned(cols: Number, rows: Number): State {
    State(Some(Clamp(cols, rows)), None, None, None, false)
  }

  /** What happens to a pacer. `now` is the clock before the event acts and `after` its next reading;
    * `ok` says whether an apply, if there is one, returns. */
  datatype Event =
    | Request(cols: Number, rows: Number, now: real, after: real, ok: bool)
    | Fire(now: real, after: real, ok: bool)
    | Dispose(now: real, after: real)
    | Forget(size: Size, now: real, after: real)

  /** The size given to `apply`, if any; whether it took is the event's `ok`. */
  type Effect = Option<Size>

  function ApplyNow(s: State, next: Size, ok: bool, after: real): State {
    if ok then s.(applied := Some(next), appliedAt := Some(after)) else s
  }

  function Wait(interval: real, s: State, now: real): real {
    if s.appliedAt.None? then 0.0
    else
      var rest := interval - (now - s.appliedAt.value);
      var bounded := if rest < 0.0 then 0.0 else rest;
      if interval < bounded then interval else bounded
  }

  function Requested(interval: real, s: State, next: Size, now: real, after: real, ok: bool): (State, Effect) {
    if s.disposed then (s, None)
    else if s.applied == Some(next) then (s.(pending := None), None)
    else if s.timer.Some? then (s.(pending := Some(next)), None)
    else if s.appliedAt.None? || now - s.appliedAt.value >= interval then (ApplyNow(s, next, ok, after), Some(next))
    else (s.(pending := Some(next), timer := Some(Timer(now, Wait(interval, s, now)))), None)
  }

  function Fired(s: State, after: real, ok: bool): (State, Effect) {
    var idle := s.(timer := None, pending := None);
    if s.pending.None? || s.applied == s.pending then (idle, None)
    else (ApplyNow(idle, s.pending.value, ok, after), Some(s.pending.value))
  }

  function Disposed(s: State): State {
    s.(disposed := true, timer := None, pending := None)
  }

  function Forgot(s: State, size: Size): State {
    if s.applied == Some(size) then s.(applied := None) else s
  }

  function Step(interval: real, s: State, e: Event): (State, Effect) {
    match e
    case Request(cols, rows, now, after, ok) => Requested(interval, s, Clamp(cols, rows), now, after, ok)
    case Fire(_, after, ok) => Fired(s, after, ok)
    case Dispose(_, _) => (Disposed(s), None)
    case Forget(size, _, _) => (Forgot(s, size), None)
  }

  // ---- the object ----

  class PtyResizeCoalescer {
    const intervalMs: real
    var applied: Option<Size>
    var appliedAt: Option<real>
    var pending: Option<Size>
    var timer: Option<Timer>
    var disposed: bool

    ghost function Contents(): State
      reads this
    {
      State(applied, appliedAt, pending, timer, disposed)
    }

    constructor (spawnedCols: Number, spawnedRows: Number, intervalMs: Option<Number>)
      ensures Contents() == Spawned(spawnedCols, spawnedRows) && this.intervalMs == Interval(intervalMs)
    {
      this.intervalMs := Interval(intervalMs);
      applied := Some(Clamp(spawnedCols, spawnedRows));
      appliedAt, pending, timer, disposed := None, None, None, false;
    }

    method Request(cols: Number, rows: Number, now: real, after: real, ok: bool) returns (effect: Effect)
      modifies this
      ensures (Contents(), effect) == Step(intervalMs, old(Contents()), Event.Request(cols, rows, now, after, ok))
    {
      effect := None;
      if disposed {
        return;
      }
      var next := Clamp(cols, rows);
      if applied == Some(next) {
        pending := None;
        return;
      }
      if timer.Some? {
        pending := Some(next);
        return;
      }
      if appliedAt.None? || now - appliedAt.value >= intervalMs {
        effect := Some(next);
        ApplyTo(next, after, ok);
        return;
      }
      pending := Some(next);
      timer := Some(Timer(now, Wait(intervalMs, State(applied, appliedAt, pending, timer, disposed), now)));
    }

    /** The timer's callback. */
    method TimerFires(now: real, after: real, ok: bool) returns (effect: Effect)
      modifies this
      ensures (Contents(), effect) == Step(intervalMs, old(Contents()), Fire(now, after, ok))
    {
      effect := pending;
      timer, pending := None, None;
      if effect.None? || applied == effect {
        return None;
      }
      ApplyTo(effect.value, after, ok);
    }

    /** A size is recorded only once its apply returns. */
    method ApplyTo(next: Size, after: real, ok: bool)
      modifies `applied, `appliedAt
      ensures Contents() == ApplyNow(old(Contents()), next, ok, after)
    {
      if ok {
        applied, appliedAt := Some(next), Some(after);
      }
    }

    method Dispose()
      modifies this
      ensures Contents() == Disposed(old(Contents()))
    {
      disposed, timer, pending := true, None, None;
    }

    method Forget(size: Size)
      modifies `applied
      ensures Contents() == Forgot(old(Contents()), size)
    {
      if applied == Some(size) {
        applied := None;
      }
    }
  }

  // ---- what each dimension becomes ----

  /** A dimension that is no number becomes the default, one below the bounds the least, one above them
    * the greatest, and any other the nearest whole number, halves going up. */
  ghost predicate Nearest(value: Number, size: int, default: int, least: int, greatest: int) {
    match value
    case NotFinite => size == default
    case Finite(x) =>
      && (x < least as real - 0.5 ==> size == least)
      && (x >= greatest as real + 0.5 ==> size == greatest)
      && (least as real - 0.5 <= x < greatest as real + 0.5 ==>
            least <= size <= greatest && size as real - 0.5 <= x < size as real + 0.5)
  }

  lemma ClampsToNearest(cols: Number, rows: Number)
    ensures Nearest(cols, Clamp(cols, rows).cols, 80, 2, 500)
    ensures Nearest(rows, Clamp(cols, rows).rows, 18, 2, 200)
  {
  }

  /** So a size a PTY can have is taken as it is. */
  lemma ClampKeeps(cols: int, rows: int)
    requires 2 <= cols <= 500 && 2 <= rows <= 200
    ensures Clamp(Finite(cols as real), Finite(rows as real)) == Size(cols, rows)
  {
    ClampsToNearest(Finite(cols as real), Finite(rows as real));
  }

  /** The pacing interval: fifty milliseconds unless a finite one is given, and never negative. */
  lemma IntervalIs(option: Option<Number>)
    ensures option.None? || option.value.NotFinite? ==> Interval(option) == 50.0
    ensures option.Some? && option.value.Finite? && option.value.value >= 0.0 ==> Interval(option) == option.value.value
    ensures option.Some? && option.value.Finite? && option.value.value < 0.0 ==> Interval(option) == 0.0
  {
  }

  // ---- what each event does ----

  /** A request: nothing when disposed; when the size is in place, only the queued one is dropped; behind a
    * timer it is queued; after a quiet interval it is applied at once; otherwise it is queued behind a
    * timer that fires when the interval since the last size is over, or after a whole one if the clock
    * went back. */
  lemma RequestDoes(interval: real, s: State, cols: Number, rows: Number, now: real, after: real, ok: bool)
    requires interval >= 0.0
    ensures var next := Clamp(cols, rows);
      var (left, effect) := Step(interval, s, Request(cols, rows, now, after, ok));
      if s.disposed then left == s && effect.None?
      else if s.applied == Some(next) then left == s.(pending := None) && effect.None?
      else if s.timer.Some? then left == s.(pending := Some(next)) && effect.None?
      else if s.appliedAt.Some? && now < s.appliedAt.value + interval then
        && effect.None? && left == s.(pending := Some(next), timer := left.timer)
        && left.timer.Some? && left.timer.value.armedAt == now
        && (now >= s.appliedAt.value ==> now + left.timer.value.wait == s.appliedAt.value + interval)
        && (now < s.appliedAt.value ==> left.timer.value.wait == interval)
      else
        && effect == Some(next)
        && left == (if ok then s.(applied := Some(next), appliedAt := Some(after)) else s)
  {
  }

  /** The timer applies the queued size, unless there is none or it is in place; a size is recorded only
    * when its apply returns. */
  lemma FireDoes(interval: real, s: State, now: real, after: real, ok: bool)
    ensures var (left, effect) := Step(interval, s, Fire(now, after, ok));
      && left.timer.None? && left.pending.None? && left.disposed == s.disposed
      && effect == (if s.pending.Some? && s.applied != s.pending then s.pending else None)
      && (if effect.Some? && ok then left.applied == s.pending && left.appliedAt == Some(after)
          else left.applied == s.applied && left.appliedAt == s.appliedAt)
  {
  }

  /** Disposing stops the timer for good; forgetting withdraws exactly the recorded size. */
  lemma EndsDo(interval: real, s: State, size: Size, now: real, after: real)
    ensures Step(interval, s, Dispose(now, after)) == (s.(disposed := true, timer := None, pending := None), None)
    ensures Step(interval, s, Forget(size, now, after)) ==
      (s.(applied := if s.applied == Some(size) then None else s.applied), None)
  {
  }

  // ---- runs ----

  /** The state before event `n`. */
  function At(interval: real, start: State, events: seq<Event>, n: nat): State
    requires n <= |events|
  {
    if n == 0 then start else Step(interval, At(interval, start, events, n - 1), events[n - 1]).0
  }

  function EffectAt(interval: real, start: State, events: seq<Event>, i: nat): Effect
    requires i < |events|
  {
    Step(interval, At(interval, start, events, i), events[i]).1
  }

  /** A size took effect: `apply` was called with it and returned. */
  predicate Took(interval: real, start: State, events: seq<Event>, i: nat)
    requires i < |events|
  {
    EffectAt(interval, start, events, i).Some? && Ok(events[i])
  }

  predicate Ok(e: Event) {
    match e
    case Request(_, _, _, _, ok) => ok
    case Fire(_, _, ok) => ok
    case _ => true
  }

  /** Timers fire only while armed. */
  ghost predicate IsRun(interval: real, start: State, events: seq<Event>) {
    forall i :: 0 <= i < |events| && events[i].Fire? ==> At(interval, start, events, i).timer.Some?
  }

  /** A clock that never goes back. */
  ghost predicate Monotone(events: seq<Event>) {
    && (forall i :: 0 <= i < |events| ==> events[i].now <= events[i].after)
    && (forall i, j :: 0 <= i < j < |events| ==> events[i].after <= events[j].now)
  }

  /** Timers that never fire early, by that clock. */
  ghost predicate Punctual(interval: real, start: State, events: seq<Event>) {
    && IsRun(interval, start, events)
    && forall i :: 0 <= i < |events| && events[i].Fire? ==>
         var timer := At(interval, start, events, i).timer.value; events[i].now >= timer.armedAt + timer.wait
  }

  // ---- any clock ----

  ghost predicate Bounded(interval: real, s: State) {
    && (s.timer.Some? ==> 0.0 <= s.timer.value.wait <= interval)
    && (s.timer.None? ==> s.pending.None?)
    && (s.disposed ==> s.timer.None?)
  }

  /** However the clock moves, an armed wait stays within the interval, a size is queued only behind
    * a timer, and a disposed pacer has none. */
  lemma {:induction false} AlwaysBounded(interval: real, cols: Number, rows: Number, events: seq<Event>, n: nat)
    requires interval >= 0.0 && n <= |events|
    ensures Bounded(interval, At(interval, Spawned(cols, rows), events, n))
  {
    if n > 0 {
      AlwaysBounded(interval, cols, rows, events, n - 1);
    }
  }

  lemma {:induction false} StaysDisposed(interval: real, start: State, events: seq<Event>, i: nat, j: nat)
    requires i <= j <= |events| && At(interval, start, events, i).disposed
    ensures At(interval, start, events, j).disposed
    decreases j - i
  {
    if i < j {
      StaysDisposed(interval, start, events, i, j - 1);
    }
  }

  /** Nothing is applied after `dispose`. */
  lemma NothingAfterDispose(interval: real, cols: Number, rows: Number, events: seq<Event>, i: nat, j: nat)
    requires interval >= 0.0 && i < j < |events| && events[i].Dispose?
    ensures EffectAt(interval, Spawned(cols, rows), events, j).None?
  {
    StaysDisposed(interval, Spawned(cols, rows), events, i + 1, j);
    AlwaysBounded(interval, cols, rows, events, j);
  }

  // ---- spacing ----

  /** What is known of the last applied size at a moment of a run with a monotone clock. */
  ghost predicate Paced(interval: real, s: State, at: real) {
    && (s.appliedAt.Some? ==> s.appliedAt.value <= at)
    && (s.timer.Some? ==> s.appliedAt.Some? && s.timer.value.armedAt <= at
                          && s.timer.value.armedAt + s.timer.value.wait >= s.appliedAt.value + interval)
  }

  lemma {:induction false} AlwaysPaced(interval: real, cols: Number, rows: Number, events: seq<Event>, n: nat)
    requires interval >= 0.0 && n < |events| && Monotone(events) && Punctual(interval, Spawned(cols, rows), events)
    ensures Paced(interval, At(interval, Spawned(cols, rows), events, n), events[n].now)
  {
    if n > 0 {
      AlwaysPaced(interval, cols, rows, events, n - 1);
      assert events[n - 1].after <= events[n].now;
    }
  }

  lemma TakesInTime(interval: real, s: State, e: Event)
    requires interval >= 0.0 && Paced(interval, s, e.now)
    requires e.Fire? ==> s.timer.Some? && e.now >= s.timer.value.armedAt + s.timer.value.wait
    requires Step(interval, s, e).1.Some? && s.appliedAt.Some?
    ensures e.now >= s.appliedAt.value + interval
  {
  }

  lemma {:induction false} AppliedAtGrows(interval: real, cols: Number, rows: Number, events: seq<Event>, i: nat,
                                          j: nat)
    requires interval >= 0.0 && i < j < |events| && Monotone(events) && Punctual(interval, Spawned(cols, rows), events)
    requires Took(interval, Spawned(cols, rows), events, i)
    ensures var s := At(interval, Spawned(cols, rows), events, j);
      s.appliedAt.Some? && s.appliedAt.value >= events[i].after
    decreases j - i
  {
    if i + 1 < j {
      AppliedAtGrows(interval, cols, rows, events, i, j - 1);
      AlwaysPaced(interval, cols, rows, events, j - 1);
      assert events[j - 1].now <= events[j - 1].after;
    }
  }

  /** Any two sizes that took effect are at least one interval apart, counted from the moment the
    * first was in place to the moment the second was decided. */
  lemma Spaced(interval: real, cols: Number, rows: Number, events: seq<Event>, i: nat, j: nat)
    requires interval >= 0.0 && i < j < |events| && Monotone(events) && Punctual(interval, Spawned(cols, rows), events)
    requires Took(interval, Spawned(cols, rows), events, i) && Took(interval, Spawned(cols, rows), events, j)
    ensures events[j].now >= events[i].after + interval
  {
    AppliedAtGrows(interval, cols, rows, events, i, j);
    AlwaysPaced(interval, cols, rows, events, j);
    TakesInTime(interval, At(interval, Spawned(cols, rows), events, j), events[j]);
  }

  // ---- what is applied ----

  /** No later event of `i..j` takes effect, and none withdraws `size`. */
  ghost predicate Undisturbed(interval: real, start: State, events: seq<Event>, i: nat, j: nat, size: Size)
    requires i <= j <= |events|
  {
    forall k :: i <= k < j ==>
      !Took(interval, start, events, k) && events[k] != Forget(size, events[k].now, events[k].after)
  }

  lemma {:induction false} StillApplied(interval: real, start: State, events: seq<Event>, i: nat, j: nat, size: Size)
    requires i <= j <= |events| && At(interval, start, events, i).applied == Some(size)
    requires Undisturbed(interval, start, events, i, j, size)
    ensures At(interval, start, events, j).applied == Some(size)
    decreases j - i
  {
    if i < j {
      StillApplied(interval, start, events, i, j - 1, size);
      assert !Took(interval, start, events, j - 1);
    }
  }

  /** Consecutive applied sizes differ, unless the first was withdrawn by `forget` in between. */
  lemma ConsecutiveDiffer(interval: real, start: State, events: seq<Event>, i: nat, j: nat, size: Size)
    requires i < j < |events| && Took(interval, start, events, i) && EffectAt(interval, start, events, i) == Some(size)
    requires Undisturbed(interval, start, events, i + 1, j, size)
    ensures EffectAt(interval, start, events, j) != Some(size)
  {
    StillApplied(interval, start, events, i + 1, j, size);
  }

  // ---- the last request wins ----

  /** The size the viewer last asked for, from the spawn grid on. */
  function LastAsked(cols: Number, rows: Number, events: seq<Event>, n: nat): Size
    requires n <= |events|
  {
    if n == 0 then Clamp(cols, rows)
    else if events[n - 1].Request? then Clamp(events[n - 1].cols, events[n - 1].rows)
    else LastAsked(cols, rows, events, n - 1)
  }

  ghost predicate Heading(s: State, asked: Size) {
    if s.pending.Some? then s.pending == Some(asked) else s.applied == Some(asked)
  }

  /** While applies succeed and nothing is withdrawn, the pacer has the last size asked for in place
    * or queued. */
  lemma {:induction false} HeadsForLast(interval: real, cols: Number, rows: Number, events: seq<Event>, n: nat)
    requires interval >= 0.0 && n <= |events|
    requires forall i :: 0 <= i < n ==> Ok(events[i]) && !events[i].Forget? && !events[i].Dispose?
    ensures Heading(At(interval, Spawned(cols, rows), events, n), LastAsked(cols, rows, events, n))
    ensures !At(interval, Spawned(cols, rows), events, n).disposed
  {
    if n > 0 {
      HeadsForLast(interval, cols, rows, events, n - 1);
      AlwaysBounded(interval, cols, rows, events, n - 1);
      assert Ok(events[n - 1]);
    }
  }

  /** So whenever no timer is armed, the PTY runs at the clamp of the last request. */
  lemma SettlesOnLast(interval: real, cols: Number, rows: Number, events: seq<Event>, n: nat)
    requires interval >= 0.0 && n <= |events|
    requires forall i :: 0 <= i < n ==> Ok(events[i]) && !events[i].Forget? && !events[i].Dispose?
    requires At(interval, Spawned(cols, rows), events, n).timer.None?
    ensures At(interval, Spawned(cols, rows), events, n).applied == Some(LastAsked(cols, rows, events, n))
  {
    HeadsForLast(interval, cols, rows, events, n);
    AlwaysBounded(interval, cols, rows, events, n);
  }
}
