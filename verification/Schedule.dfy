/** Windowed schedules (pkg/schedule/windowed_schedule.go, pkg/schedule/schedule.go) and the task
loop that waits on them and fires (scheduler/task.go). Times are integers, in nanoseconds. Every
reading of the clock is an input; what is known of the readings is that they do not decrease and
that a sleep lasts at least as long as asked. */
module Schedule {
  import opened Wrappers
  import Remainders

  datatype State = Active | Ended

  datatype Refusal = Accepted | StopTimeInPast | StopBeforeStart | InvalidInterval

  datatype Settings = Settings(interval: int, start: Option<int>, stop: Option<int>, count: nat)

  /** A schedule between calls: its settings, state, and the right end of its window. */
  datatype Window = Window(cfg: Settings, state: State, stopOn: Option<int>)

  datatype Response = Response(state: State, missed: nat, lastTime: int)

  /** The clock readings of one Wait, in the order they are made. */
  datatype Clock = Clock(
    stopSet: int,      // is the start in the future?
    stopBase: int,     // the base of a counted window without one
    startCheck: int,   // is it time to start?
    windowCheck: int,  // after sleeping until the start: is the window still open?
    intervalNow: int,  // time since the last fire
    endCheck: int,     // after sleeping out the interval: has the window closed?
    respond: int)

  /** Intervals that went by completely between two times, and the time left in the current one. */
  function Missed(last: int, interval: int, now: int): nat
    requires interval > 0 && last <= now
  {
    (now - last) / interval
  }

  function Remaining(last: int, interval: int, now: int): int
    requires interval > 0 && last <= now
  {
    interval - (now - last) % interval
  }

  lemma {:induction false} Division(d: nat, i: int)
    requires i > 0
    ensures d == i * (d / i) + d % i && 0 <= d % i < i
  {
  }

  lemma {:induction false} Distribute(i: int, a: int, b: int)
    ensures i * (a + b) == i * a + i * b
  {
  }

  /** Sleeping out the rest of an interval ends on the grid that starts at the last fire, right after
      the missed intervals. */
  lemma {:induction false} WakesOnGrid(last: int, interval: int, now: int)
    requires interval > 0 && last <= now
    ensures now + Remaining(last, interval, now) == last + interval * (Missed(last, interval, now) + 1)
    ensures now < now + Remaining(last, interval, now) <= now + interval
  {
    Division(now - last, interval);
    Distribute(interval, Missed(last, interval, now), 1);
  }

  /** The right end of the window, computed by the first Wait of a spin. */
  function StopOnTime(cfg: Settings, c: Clock): Option<int> {
    if cfg.stop.None? && cfg.count != 0 then Some(Base(cfg, c) + cfg.count * cfg.interval) else cfg.stop
  }

  /** What a counted window is counted from: a start in the future, else the current time. */
  function Base(cfg: Settings, c: Clock): int {
    if cfg.start.Some? && c.stopSet < cfg.start.value then cfg.start.value else c.stopBase
  }

  function Boundary(w: Window, last: Option<int>, c: Clock): Option<int> {
    if last.None? then StopOnTime(w.cfg, c) else w.stopOn
  }

  /** The window is still open when Wait looks, so it goes on to sleep out the interval. */
  predicate Open(w: Window, last: Option<int>, c: Clock) {
    var b := Boundary(w, last, c); b.None? || c.windowCheck < b.value
  }

  /** The window closed: before the interval or during it. */
  predicate Closes(w: Window, last: Option<int>, c: Clock) {
    var b := Boundary(w, last, c); b.Some? && (b.value <= c.windowCheck || b.value < c.endCheck)
  }

  function Waited(w: Window, last: Option<int>, c: Clock): Window {
    Window(w.cfg, if Closes(w, last, c) then Ended else w.state, Boundary(w, last, c))
  }

  function MissedBy(w: Window, last: Option<int>, c: Clock): nat
    requires w.cfg.interval > 0 && (last.Some? ==> last.value <= c.intervalNow)
  {
    if last.Some? && Open(w, last, c) then Missed(last.value, w.cfg.interval, c.intervalNow) else 0
  }

  /** The readings do not decrease from `now` on. */
  predicate Ordered(now: int, c: Clock) {
    now <= c.stopSet <= c.stopBase <= c.startCheck <= c.windowCheck <= c.intervalNow <= c.endCheck <= c.respond
  }

  /** The sleeps of a Wait last at least as long as asked. */
  predicate Sleeps(w: Window, last: Option<int>, c: Clock)
    requires w.cfg.interval > 0 && (last.Some? ==> last.value <= c.intervalNow)
  {
    && (w.cfg.start.Some? && c.startCheck < w.cfg.start.value ==> w.cfg.start.value <= c.windowCheck)
    && (last.Some? && Open(w, last, c) ==>
          c.intervalNow + Remaining(last.value, w.cfg.interval, c.intervalNow) <= c.endCheck)
  }

  /** The time passed since the last fire, in whole intervals, and how long to sleep. */
  method WaitOnInterval(last: Option<int>, interval: int, now: int) returns (missed: nat, sleep: int)
    requires interval > 0 && (last.Some? ==> last.value <= now)
    ensures last.None? ==> missed == 0 && sleep == 0
    ensures last.Some? ==> now + sleep == last.value + interval * (missed + 1) && 0 < sleep <= interval
    ensures last.Some? ==> missed == Missed(last.value, interval, now)
    ensures last.Some? ==> sleep == Remaining(last.value, interval, now)
  {
    if last.None? {
      return 0, 0;
    }
    WakesOnGrid(last.value, interval, now);
    var timeDiff := now - last.value;
    var remainder := timeDiff % interval;
    Division(timeDiff, interval);
    Remainders.QuotientUnique(timeDiff - remainder, interval, timeDiff / interval, 0);
    missed := (timeDiff - remainder) / interval;
    sleep := interval - remainder;
  }

  class WindowedSchedule {
    const cfg: Settings
    var state: State
    var stopOnTime: Option<int>

    /** A count given together with a stop time is ignored. */
    constructor (interval: int, start: Option<int>, stop: Option<int>, count: nat)
      ensures cfg == Settings(interval, start, stop, if stop.Some? then 0 else count)
      ensures state == Active && stopOnTime == None
    {
      var kept := count;
      if count != 0 && stop.Some? {
        kept := 0;
      }
      cfg := Settings(interval, start, stop, kept);
      state, stopOnTime := Active, None;
    }

    ghost function View(): Window
      reads this
    {
      Window(cfg, state, stopOnTime)
    }

    method Validate(now: int) returns (r: Refusal)
      modifies this
      ensures r == Accepted <==>
        && cfg.interval > 0
        && (cfg.stop.Some? ==> now <= cfg.stop.value)
        && (cfg.stop.Some? && cfg.start.Some? ==> cfg.start.value <= cfg.stop.value)
      ensures r == StopTimeInPast <==> cfg.stop.Some? && cfg.stop.value < now
      ensures r == StopBeforeStart ==> cfg.stop.Some? && cfg.start.Some? && cfg.stop.value < cfg.start.value
      ensures r == InvalidInterval ==>
        cfg.interval <= 0 && (cfg.stop.Some? && cfg.start.Some? ==> cfg.start.value <= cfg.stop.value)
      ensures View() == if r == Accepted then old(View()).(state := Active) else old(View())
    {
      if cfg.stop.Some? && now > cfg.stop.value {
        return StopTimeInPast;
      }
      if cfg.stop.Some? && cfg.start.Some? && cfg.stop.value < cfg.start.value {
        return StopBeforeStart;
      }
      if cfg.interval <= 0 {
        return InvalidInterval;
      }
      state := Active;
      return Accepted;
    }

    method SetStopOnTime(c: Clock)
      modifies this
      ensures View() == old(View()).(stopOn := StopOnTime(cfg, c))
    {
      if cfg.stop.None? && cfg.count != 0 {
        var newStop: int;
        if cfg.start.Some? && c.stopSet < cfg.start.value {
          newStop := cfg.start.value + cfg.count * cfg.interval;
        } else {
          newStop := c.stopBase + cfg.count * cfg.interval;
        }
        stopOnTime := Some(newStop);
        return;
      }
      stopOnTime := cfg.stop;
    }

    method Wait(last: Option<int>, c: Clock) returns (r: Response)
      requires cfg.interval > 0 && (last.Some? ==> last.value <= c.intervalNow)
      modifies this
      ensures View() == Waited(old(View()), last, c)
      ensures r == Response(View().state, MissedBy(old(View()), last, c), c.respond)
    {
      var m: nat, sleep := 0, 0;
      if last.None? {
        SetStopOnTime(c);
      }
      // The sleep until the start shows only in the readings that follow it.
      if stopOnTime.Some? {
        if c.windowCheck < stopOnTime.value {
          m, sleep := WaitOnInterval(last, cfg.interval, c.intervalNow);
          if c.endCheck > stopOnTime.value {
            state := Ended;
          }
        } else {
          state := Ended;
          m := 0;
        }
      } else {
        m, sleep := WaitOnInterval(last, cfg.interval, c.intervalNow);
      }
      return Response(state, m, c.respond);
    }
  }

  /** One turn of the task loop: a Wait and, if the schedule is still active, a fire. */
  datatype Round = Round(clock: Clock, fired: int)

  /** A task between rounds. */
  datatype Task = Task(window: Window, last: Option<int>, hits: nat, missed: nat)

  predicate Takes(t: Task, now: int, r: Round) {
    && t.window.state.Active?
    && t.window.cfg.interval > 0
    && (t.last.Some? ==> t.last.value <= now)
    && Ordered(now, r.clock)
    && r.clock.respond <= r.fired
    && Sleeps(t.window, t.last, r.clock)
  }

  function Turn(t: Task, r: Round): Task
    requires t.window.cfg.interval > 0 && (t.last.Some? ==> t.last.value <= r.clock.intervalNow)
  {
    var w := Waited(t.window, t.last, r.clock);
    if w.state.Active?
    then Task(w, Some(r.fired), t.hits + 1, t.missed + MissedBy(t.window, t.last, r.clock))
    else t.(window := w)
  }

  /** Rounds of one spin, each beginning no earlier than the one before it ended. */
  predicate Spins(t: Task, now: int, rs: seq<Round>)
    decreases |rs|
  {
    rs == [] || (Takes(t, now, rs[0]) && Spins(Turn(t, rs[0]), rs[0].fired, rs[1..]))
  }

  function After(t: Task, now: int, rs: seq<Round>): Task
    requires Spins(t, now, rs)
    decreases |rs|
  {
    if rs == [] then t else After(Turn(t, rs[0]), rs[0].fired, rs[1..])
  }

  function Fresh(cfg: Settings): Task {
    Task(Window(cfg, Active, None), None, 0, 0)
  }

  datatype TaskState = Spinning | Stopped | TaskEnded | Disabled

  /** One spin with its failures: which of the fires had failed by the time the loop looked. It ends with
      its schedule, or when `limit` fires in a row have failed; `streak` of them came before. */
  function Spun(t: Task, now: int, rs: seq<Round>, failed: seq<bool>, limit: int, streak: nat): (Task, TaskState)
    requires Spins(t, now, rs) && |failed| == |rs|
    decreases |rs|
  {
    if rs == [] then (t, Spinning) else
    var u := Turn(t, rs[0]);
    if u.window.state.Ended? then (u, TaskEnded) else
    var next: nat := if failed[0] then streak + 1 else 0;
    if limit >= 0 && next >= limit then (u, Disabled)
    else Spun(u, rs[0].fired, rs[1..], failed[1..], limit, next)
  }

  /** Being told to stop makes a spinning task forget its last fire. */
  function Killed(r: (Task, TaskState)): (Task, TaskState) {
    if r.1 == Spinning then (r.0.(last := None), Stopped) else r
  }

  /** The task's fields and its loop. The rounds are what the clock and the sleeps did; `killed` says
      whether the task is told to stop after the last of them. */
  class SpinningTask {
    const schedule: WindowedSchedule
    const stopOnFailure: int
    var state: TaskState
    var lastFireTime: Option<int>
    var hitCount: nat
    var missedIntervals: nat

    constructor (schedule: WindowedSchedule, stopOnFailure: int)
      ensures this.schedule == schedule && this.stopOnFailure == stopOnFailure
      ensures state == Spinning && lastFireTime == None && hitCount == 0 && missedIntervals == 0
    {
      this.schedule, this.stopOnFailure := schedule, stopOnFailure;
      state, lastFireTime, hitCount, missedIntervals := Spinning, None, 0, 0;
    }

    ghost function View(): Task
      reads this, schedule
    {
      Task(schedule.View(), lastFireTime, hitCount, missedIntervals)
    }

    method Fire(now: int)
      modifies this
      ensures View() == old(View()).(last := Some(now), hits := old(hitCount) + 1) && state == old(state)
    {
      lastFireTime := Some(now);
      hitCount := hitCount + 1;
    }

    method Spin(rs: seq<Round>, failed: seq<bool>, killed: bool, ghost now: int)
      requires Spins(View(), now, rs) && |failed| == |rs| && state == Spinning
      modifies this, schedule
      ensures var r := Spun(old(View()), now, rs, failed, stopOnFailure, 0);
        (View(), state) == if killed then Killed(r) else r
    {
      var consecutiveFailures: nat := 0;
      ghost var clock := now;
      for i := 0 to |rs|
        invariant state == Spinning && Spins(View(), clock, rs[i..])
        invariant Spun(View(), clock, rs[i..], failed[i..], stopOnFailure, consecutiveFailures)
               == Spun(old(View()), now, rs, failed, stopOnFailure, 0)
      {
        assert rs[i..][1..] == rs[i + 1..] && failed[i..][1..] == failed[i + 1..];
        var response := schedule.Wait(lastFireTime, rs[i].clock);
        if response.state == Ended {
          state := TaskEnded;
          return;
        }
        missedIntervals := missedIntervals + response.missed;
        Fire(rs[i].fired);
        if failed[i] {
          consecutiveFailures := consecutiveFailures + 1;
        } else {
          consecutiveFailures := 0;
        }
        if stopOnFailure >= 0 && consecutiveFailures >= stopOnFailure {
          state := Disabled;
          return;
        }
        clock := rs[i].fired;
      }
      if killed {
        state := Stopped;
        lastFireTime := None;
      }
    }
  }

  /** The `limit` fires up to round k all failed, counting a streak of failures before the given rounds. */
  predicate Due(streak: nat, failed: seq<bool>, k: nat, limit: int) {
    && k <= |failed| && limit <= streak + k
    && forall i | 0 <= i < k && k - limit <= i :: failed[i]
  }

  /** A failure lengthens the streak before the rest; a success starts it afresh. */
  lemma {:induction false} DueShift(streak: nat, failed: seq<bool>, k: nat, limit: int, next: nat)
    requires 1 <= k <= |failed| && streak < limit && next == if failed[0] then streak + 1 else 0
    ensures Due(streak, failed, k, limit) <==> Due(next, failed[1..], k - 1, limit)
  {
    var rest := failed[1..];
    assert forall i | 0 <= i < |rest| :: rest[i] == failed[i + 1];
    if Due(streak, failed, k, limit) {
      assert k <= limit ==> failed[0];
      assert forall i | 0 <= i < k - 1 && k - 1 - limit <= i :: rest[i] == failed[i + 1];
    }
    if Due(next, rest, k - 1, limit) {
      forall i | 0 <= i < k && k - limit <= i
        ensures failed[i]
      {
        assert i > 0 ==> failed[i] == rest[i - 1];
      }
    }
  }

  lemma {:induction false} SpinPrefix(t: Task, now: int, rs: seq<Round>, k: nat)
    requires Spins(t, now, rs) && rs != [] && k < |rs|
    requires Spins(Turn(t, rs[0]), rs[0].fired, rs[1..][..k])
    ensures Spins(t, now, rs[..k + 1])
    ensures After(t, now, rs[..k + 1]) == After(Turn(t, rs[0]), rs[0].fired, rs[1..][..k])
  {
    assert rs[..k + 1][1..] == rs[1..][..k] && rs[..k + 1][0] == rs[0];
  }

  /** After k rounds the task is in the given state, and no streak came due before. */
  predicate Breaks(streak: nat, failed: seq<bool>, limit: int, k: nat, state: TaskState) {
    && k <= |failed|
    && (state == Disabled ==> k > 0 && Due(streak, failed, k, limit))
    && (state == Spinning ==> k == |failed| && (k > 0 ==> !Due(streak, failed, k, limit)))
    && (forall j | 0 < j < k :: !Due(streak, failed, j, limit))
  }

  lemma {:induction false} BreaksNext(streak: nat, failed: seq<bool>, limit: int, k: nat, state: TaskState, next: nat)
    requires failed != [] && streak < limit && next == (if failed[0] then streak + 1 else 0) && next < limit
    requires Breaks(next, failed[1..], limit, k, state)
    ensures Breaks(streak, failed, limit, k + 1, state)
  {
    assert !Due(streak, failed, 1, limit);
    forall j | 1 < j <= k + 1
      ensures Due(streak, failed, j, limit) <==> Due(next, failed[1..], j - 1, limit)
    {
      DueShift(streak, failed, j, limit, next);
    }
  }

  /** What a spin amounts to: its first k rounds, for some k. A positive limit disables the task right
      after the first streak of that many failed fires, and nothing else does. */
  lemma {:induction false} DisabledAtFirstStreak(
    t: Task, now: int, rs: seq<Round>, failed: seq<bool>, limit: int, streak: nat) returns (k: nat)
    requires Spins(t, now, rs) && |failed| == |rs| && streak < limit
    ensures k <= |rs| && Spins(t, now, rs[..k])
    ensures var r := Spun(t, now, rs, failed, limit, streak);
      && r.0 == After(t, now, rs[..k])
      && Breaks(streak, failed, limit, k, r.1)
      && (r.1 == TaskEnded ==> r.0.window.state.Ended?)
    decreases |rs|
  {
    if rs == [] {
      k := 0;
    } else {
      var u := Turn(t, rs[0]);
      var next: nat := if failed[0] then streak + 1 else 0;
      if u.window.state.Ended? || next >= limit {
        SpinPrefix(t, now, rs, 0);
        k := 1;
      } else {
        var n := DisabledAtFirstStreak(u, rs[0].fired, rs[1..], failed[1..], limit, next);
        SpinPrefix(t, now, rs, n);
        BreaksNext(streak, failed, limit, n, Spun(t, now, rs, failed, limit, streak).1, next);
        k := n + 1;
      }
    }
  }

  /** A limit of zero disables the task after its first fire, failed or not. */
  lemma {:induction false} ZeroLimitDisables(t: Task, now: int, rs: seq<Round>, failed: seq<bool>)
    requires Spins(t, now, rs) && rs != [] && |failed| == |rs| && Turn(t, rs[0]).window.state.Active?
    ensures Spun(t, now, rs, failed, 0, 0) == (Turn(t, rs[0]), Disabled)
  {
  }

  /** And a negative limit never disables it: the spin ends with its window or goes on. */
  lemma {:induction false} NegativeLimitNever(
    t: Task, now: int, rs: seq<Round>, failed: seq<bool>, limit: int, streak: nat)
    requires Spins(t, now, rs) && |failed| == |rs| && limit < 0
    ensures Spun(t, now, rs, failed, limit, streak).1 != Disabled
    decreases |rs|
  {
    if rs != [] {
      var next: nat := if failed[0] then streak + 1 else 0;
      NegativeLimitNever(Turn(t, rs[0]), rs[0].fired, rs[1..], failed[1..], limit, next);
    }
  }

  predicate Fires(t: Task, r: Round)
    requires t.window.cfg.interval > 0 && (t.last.Some? ==> t.last.value <= r.clock.intervalNow)
  {
    Turn(t, r).window.state.Active?
  }

  lemma {:induction false} RoundOnGrid(t: Task, now: int, r: Round)
    requires Takes(t, now, r) && Fires(t, r) && t.last.Some?
    ensures t.last.value + t.window.cfg.interval * (Turn(t, r).missed - t.missed + 1) <= r.clock.endCheck <= r.fired
  {
    WakesOnGrid(t.last.value, t.window.cfg.interval, r.clock.intervalNow);
  }

  /** Between one fire and a later one lie at least as many intervals as there were fires and missed
      intervals, so no interval is counted twice. */
  lemma {:induction false} IntervalsAccounted(t: Task, now: int, rs: seq<Round>)
    requires Spins(t, now, rs) && t.last.Some? && t.window.cfg.interval > 0
    ensures var u := After(t, now, rs);
      && u.last.Some?
      && u.last.value - t.last.value >= t.window.cfg.interval * ((u.hits - t.hits) + (u.missed - t.missed))
    decreases |rs|
  {
    if rs != [] {
      var v := Turn(t, rs[0]);
      IntervalsAccounted(v, rs[0].fired, rs[1..]);
      if Fires(t, rs[0]) {
        RoundOnGrid(t, now, rs[0]);
        var u := After(t, now, rs);
        Distribute(t.window.cfg.interval, (u.hits - v.hits) + (u.missed - v.missed), v.missed - t.missed + 1);
      }
    }
  }

  /** Every sleep ends exactly when asked and every fire follows at once. */
  predicate Prompt(t: Task, now: int, rs: seq<Round>)
    requires Spins(t, now, rs)
    decreases |rs|
  {
    rs == [] ||
    (&& (t.last.Some? && Fires(t, rs[0]) ==>
           rs[0].fired == rs[0].clock.intervalNow
             + Remaining(t.last.value, t.window.cfg.interval, rs[0].clock.intervalNow))
     && Prompt(Turn(t, rs[0]), rs[0].fired, rs[1..]))
  }

  /** Without delays the account is exact. */
  lemma {:induction false} IntervalsExact(t: Task, now: int, rs: seq<Round>)
    requires Spins(t, now, rs) && Prompt(t, now, rs) && t.last.Some? && t.window.cfg.interval > 0
    ensures var u := After(t, now, rs);
      && u.last.Some?
      && u.last.value - t.last.value == t.window.cfg.interval * ((u.hits - t.hits) + (u.missed - t.missed))
    decreases |rs|
  {
    if rs != [] {
      var v := Turn(t, rs[0]);
      IntervalsExact(v, rs[0].fired, rs[1..]);
      if Fires(t, rs[0]) {
        WakesOnGrid(t.last.value, t.window.cfg.interval, rs[0].clock.intervalNow);
        var u := After(t, now, rs);
        Distribute(t.window.cfg.interval, (u.hits - v.hits) + (u.missed - v.missed), v.missed - t.missed + 1);
      }
    }
  }

  /** A whole spin, from the first fire on. */
  lemma {:induction false} SpinAccounted(cfg: Settings, now: int, rs: seq<Round>)
    requires Spins(Fresh(cfg), now, rs) && After(Fresh(cfg), now, rs).hits > 0
    ensures var u := After(Fresh(cfg), now, rs);
      && rs != [] && u.last.Some?
      && u.last.value - rs[0].fired >= cfg.interval * (u.hits - 1 + u.missed)
      && (Prompt(Fresh(cfg), now, rs) ==> u.last.value - rs[0].fired == cfg.interval * (u.hits - 1 + u.missed))
  {
    var t := Turn(Fresh(cfg), rs[0]);
    if Fires(Fresh(cfg), rs[0]) {
      IntervalsAccounted(t, rs[0].fired, rs[1..]);
      if Prompt(Fresh(cfg), now, rs) {
        IntervalsExact(t, rs[0].fired, rs[1..]);
      }
    }
  }

  /** No fire before the start, none decided on after the window's end. */
  predicate FiresWithin(t: Task, now: int, rs: seq<Round>, end: Option<int>)
    requires Spins(t, now, rs)
    decreases |rs|
  {
    rs == [] ||
    (&& (Fires(t, rs[0]) ==>
           && (t.window.cfg.start.Some? ==> t.window.cfg.start.value <= rs[0].clock.windowCheck)
           && (end.Some? ==> rs[0].clock.windowCheck < end.value && rs[0].clock.endCheck <= end.value))
     && FiresWithin(Turn(t, rs[0]), rs[0].fired, rs[1..], end))
  }

  lemma {:induction false} StaysWithin(t: Task, now: int, rs: seq<Round>)
    requires Spins(t, now, rs) && t.last.Some?
    ensures FiresWithin(t, now, rs, t.window.stopOn)
    decreases |rs|
  {
    if rs != [] {
      StaysWithin(Turn(t, rs[0]), rs[0].fired, rs[1..]);
    }
  }

  /** Every fire of a spin lies within the window fixed by its first Wait. */
  lemma {:induction false} SpinWithinWindow(cfg: Settings, now: int, rs: seq<Round>)
    requires Spins(Fresh(cfg), now, rs) && rs != []
    ensures FiresWithin(Fresh(cfg), now, rs, StopOnTime(cfg, rs[0].clock))
  {
    var t := Turn(Fresh(cfg), rs[0]);
    if Fires(Fresh(cfg), rs[0]) {
      StaysWithin(t, rs[0].fired, rs[1..]);
    }
  }

  /** The round looks at the window before its end and is through with its interval by then. */
  predicate InTime(r: Round, end: Option<int>) {
    end.Some? ==> r.clock.windowCheck < end.value && r.clock.endCheck <= end.value
  }

  /** How a spin goes with a given end: all its rounds are in time, except that the last may be late, and
      each of them that is in time fires. */
  predicate FiresUntil(rs: seq<Round>, end: Option<int>, before: nat, u: Task) {
    && (forall i | 0 <= i < |rs| - 1 :: InTime(rs[i], end))
    && (u.window.state.Active? <==> rs == [] || InTime(rs[|rs| - 1], end))
    && u.hits == before + |rs| - if u.window.state.Active? then 0 else 1
  }

  lemma {:induction false} GoesOnUntil(t: Task, now: int, rs: seq<Round>)
    requires Spins(t, now, rs) && t.last.Some? && t.window.state.Active?
    ensures FiresUntil(rs, t.window.stopOn, t.hits, After(t, now, rs))
    decreases |rs|
  {
    if rs != [] && Fires(t, rs[0]) {
      GoesOnUntil(Turn(t, rs[0]), rs[0].fired, rs[1..]);
    }
  }

  lemma {:induction false} SpinGoesOn(t: Task, now: int, rs: seq<Round>, end: Option<int>)
    requires Spins(t, now, rs) && t.last.None? && t.window.state.Active?
    requires rs != [] ==> end == StopOnTime(t.window.cfg, rs[0].clock)
    ensures FiresUntil(rs, end, t.hits, After(t, now, rs))
  {
    if rs != [] && Fires(t, rs[0]) {
      GoesOnUntil(Turn(t, rs[0]), rs[0].fired, rs[1..]);
    }
  }

  /** A schedule without stop and count never ends, and fires in every round. */
  lemma {:induction false} EndlessFires(cfg: Settings, now: int, rs: seq<Round>)
    requires Spins(Fresh(cfg), now, rs) && cfg.stop.None? && cfg.count == 0
    ensures After(Fresh(cfg), now, rs).window.state.Active? && After(Fresh(cfg), now, rs).hits == |rs|
  {
    SpinGoesOn(Fresh(cfg), now, rs, None);
  }

  /** A schedule with a stop fires in every round that is in time for it, and ends with the first that is
      not. */
  lemma {:induction false} FiresUntilStop(cfg: Settings, now: int, rs: seq<Round>, stop: int)
    requires Spins(Fresh(cfg), now, rs) && cfg.stop == Some(stop)
    ensures FiresUntil(rs, Some(stop), 0, After(Fresh(cfg), now, rs))
  {
    SpinGoesOn(Fresh(cfg), now, rs, Some(stop));
  }

  /** A counted schedule does the same for Count intervals from its start if that lies in the future, or
      else from when it was begun. */
  lemma {:induction false} FiresUntilCount(cfg: Settings, now: int, rs: seq<Round>, end: int)
    requires Spins(Fresh(cfg), now, rs) && rs != [] && cfg.stop.None? && cfg.count > 0
    requires var c := rs[0].clock;
      end - cfg.count * cfg.interval ==
        if cfg.start.Some? && cfg.start.value > c.stopSet then cfg.start.value else c.stopBase
    ensures FiresUntil(rs, Some(end), 0, After(Fresh(cfg), now, rs))
  {
    SpinGoesOn(Fresh(cfg), now, rs, Some(end));
  }

  lemma {:induction false} SpunActive(t: Task, now: int, rs: seq<Round>, failed: seq<bool>, limit: int, streak: nat)
    requires Spins(t, now, rs) && |failed| == |rs| && t.window.state.Active?
    ensures var r := Spun(t, now, rs, failed, limit, streak);
      && (r.1 == Spinning ==> r.0 == After(t, now, rs) && r.0.window.state.Active?)
      && r.0.window.cfg == t.window.cfg
    decreases |rs|
  {
    if rs != [] && Fires(t, rs[0]) {
      var next: nat := if failed[0] then streak + 1 else 0;
      SpunActive(Turn(t, rs[0]), rs[0].fired, rs[1..], failed[1..], limit, next);
    }
  }

  /** A task that is stopped and started again begins a new window, whatever became of the old one: a
      counted one is counted anew from the first reading of the second spin. Hits go on counting. */
  lemma {:induction false} RestartBeginsAnew(t: Task, now: int, rs: seq<Round>, failed: seq<bool>, limit: int,
      later: int, rs2: seq<Round>, end: Option<int>)
    requires Spins(t, now, rs) && |failed| == |rs| && t.window.state.Active?
    requires Spun(t, now, rs, failed, limit, 0).1 == Spinning
    requires var u := Killed(Spun(t, now, rs, failed, limit, 0)).0;
      Spins(u, later, rs2) && (rs2 != [] ==> end == StopOnTime(t.window.cfg, rs2[0].clock))
    ensures Killed(Spun(t, now, rs, failed, limit, 0)).1 == Stopped
    ensures var u := Killed(Spun(t, now, rs, failed, limit, 0)).0;
      u.hits == After(t, now, rs).hits && FiresUntil(rs2, end, u.hits, After(u, later, rs2))
  {
    SpunActive(t, now, rs, failed, limit, 0);
    SpinGoesOn(Killed(Spun(t, now, rs, failed, limit, 0)).0, later, rs2, end);
  }

  /** After a fire at time l the window's end leaves room for every further fire and miss. */
  lemma {:induction false} RoomLeft(t: Task, now: int, rs: seq<Round>, end: int)
    requires Spins(t, now, rs) && t.last.Some? && t.window.stopOn == Some(end) && t.window.cfg.interval > 0
    ensures var u := After(t, now, rs);
      && u.hits >= t.hits
      && (if u.hits == t.hits then u.missed == t.missed
          else t.last.value + t.window.cfg.interval * ((u.hits - t.hits) + (u.missed - t.missed)) <= end)
    decreases |rs|
  {
    if rs != [] {
      var v := Turn(t, rs[0]);
      RoomLeft(v, rs[0].fired, rs[1..], end);
      if Fires(t, rs[0]) {
        RoundOnGrid(t, now, rs[0]);
        var u := After(t, now, rs);
        Distribute(t.window.cfg.interval, (u.hits - v.hits) + (u.missed - v.missed), v.missed - t.missed + 1);
      }
    }
  }

  lemma {:induction false} FewerIntervals(i: int, a: int, b: int)
    requires i > 0 && i * a <= i * b
    ensures a <= b
  {
    if b < a {
      Remainders.Scaled(i, b + 1, a);
      Distribute(i, b, 1);
    }
  }

  lemma {:induction false} FewerIntervalsStrictly(i: int, a: int, b: int)
    requires i > 0 && i * a < i * b
    ensures a < b
  {
    if b <= a {
      Remainders.Scaled(i, b, a);
    }
  }

  /** A counted schedule fires at most Count times, missed intervals included, if the first fire comes
      strictly after the time the window is counted from. It can exceed the count by one only if the
      first fire comes at that very time. */
  lemma {:induction false} CountLimits(cfg: Settings, now: int, rs: seq<Round>)
    requires Spins(Fresh(cfg), now, rs) && rs != [] && cfg.stop.None? && cfg.count > 0
    ensures var u := After(Fresh(cfg), now, rs);
      && (Base(cfg, rs[0].clock) < rs[0].fired ==> u.hits + u.missed <= cfg.count)
      && u.hits + u.missed <= cfg.count + 1
  {
    var base, end := Base(cfg, rs[0].clock), Base(cfg, rs[0].clock) + cfg.count * cfg.interval;
    var t := Turn(Fresh(cfg), rs[0]);
    if Fires(Fresh(cfg), rs[0]) {
      RoomLeft(t, rs[0].fired, rs[1..], end);
      var u := After(Fresh(cfg), now, rs);
      if u.hits > 1 {
        var more := u.hits - 1 + u.missed;
        FewerIntervals(cfg.interval, more, cfg.count);
        if base < rs[0].fired {
          FewerIntervalsStrictly(cfg.interval, more, cfg.count);
        }
      }
    }
  }

  /** Rounds without any delay. */
  function Steady(last: int, interval: int, n: nat): seq<Round>
    decreases n
  {
    if n == 0 then [] else
    var wake := last + interval;
    [Round(Clock(last, last, last, last, last, wake, wake), wake)] + Steady(wake, interval, n - 1)
  }

  lemma {:induction false} SteadySpins(t: Task, l: int, n: nat, end: int)
    requires t.window.state.Active? && t.window.cfg.interval > 0 && t.last == Some(l) && t.window.stopOn == Some(end)
    requires t.window.cfg.start.Some? ==> t.window.cfg.start.value <= l
    requires l + t.window.cfg.interval * n <= end
    ensures Spins(t, l, Steady(l, t.window.cfg.interval, n))
    ensures After(t, l, Steady(l, t.window.cfg.interval, n)).hits == t.hits + n
    decreases n
  {
    if n > 0 {
      var i := t.window.cfg.interval;
      var rs := Steady(l, i, n);
      Distribute(i, n - 1, 1);
      Remainders.Scaled(i, 0, n - 1);
      Remainders.QuotientUnique(0, i, 0, 0);
      assert rs[1..] == Steady(l + i, i, n - 1);
      SteadySpins(Turn(t, rs[0]), l + i, n - 1, end);
    }
  }

  /** When the first fire comes at the very time the window is counted from, a spin that goes on
      without delays fires once more than Count. */
  lemma {:induction false} OneTooMany(cfg: Settings, now: int, r: Round) returns (rs: seq<Round>)
    requires cfg.stop.None? && cfg.count > 0
    requires Takes(Fresh(cfg), now, r) && Fires(Fresh(cfg), r) && r.fired <= Base(cfg, r.clock)
    ensures Spins(Fresh(cfg), now, [r] + rs) && After(Fresh(cfg), now, [r] + rs).hits == cfg.count + 1
  {
    var base := Base(cfg, r.clock);
    rs := Steady(base, cfg.interval, cfg.count);
    SteadySpins(Turn(Fresh(cfg), r), base, cfg.count, base + cfg.count * cfg.interval);
    assert ([r] + rs)[1..] == rs;
  }

  /** Exactly when the count is kept: whatever happens after the first round, Count is not exceeded,
      if and only if the first fire came strictly after the time the window is counted from. */
  lemma {:induction false} CountKeptIff(cfg: Settings, now: int, r: Round)
    requires cfg.stop.None? && cfg.count > 0
    requires Takes(Fresh(cfg), now, r) && Fires(Fresh(cfg), r)
    ensures (forall rs :: Spins(Fresh(cfg), now, [r] + rs) ==> After(Fresh(cfg), now, [r] + rs).hits <= cfg.count)
        <==> Base(cfg, r.clock) < r.fired
  {
    if Base(cfg, r.clock) < r.fired {
      forall rs | Spins(Fresh(cfg), now, [r] + rs)
        ensures After(Fresh(cfg), now, [r] + rs).hits <= cfg.count
      {
        CountLimits(cfg, now, [r] + rs);
      }
    } else {
      var rs := OneTooMany(cfg, now, r);
    }
  }

  /** Such a first round is possible whatever the interval and the count, whether or not the start
      lies in the future. */
  lemma {:induction false} FirstFireAtBase(cfg: Settings, now: int) returns (r: Round)
    requires cfg.stop.None? && cfg.count > 0 && cfg.interval > 0
    ensures Takes(Fresh(cfg), now, r) && Fires(Fresh(cfg), r) && r.fired == Base(cfg, r.clock)
  {
    var base := if cfg.start.Some? && now < cfg.start.value then cfg.start.value else now;
    r := Round(Clock(now, now, now, base, base, base, base), base);
    Remainders.Scaled(cfg.interval, 1, cfg.count);
  }
}
