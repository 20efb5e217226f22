/**
 * Timer: a countdown driven by frame updates. Times are reals (the source uses floats; rounding is
 * not modelled). Tick and completion notifications are recorded in `events`.
 */
module Timer {

  datatype TimerEvent = Ticked(elapsed: real) | Completed

  /** Mathf.Clamp01. */
  function Clamp01(x: real): (r: real)
    ensures 0.0 <= r <= 1.0
    ensures 0.0 <= x <= 1.0 ==> r == x
  {
    if x < 0.0 then 0.0 else if x > 1.0 then 1.0 else x
  }

  class Timer {
    var duration: real
    var elapsed: real
    var running: bool
    var events: seq<TimerEvent>

    constructor (duration: real)
      ensures this.duration == duration && elapsed == 0.0 && !running && events == []
      ensures Valid()
    {
      this.duration := duration;
      elapsed := 0.0;
      running := false;
      events := [];
    }

    /** A running timer with a positive duration has not reached it yet. */
    ghost predicate Valid()
      reads this
    {
      running && duration > 0.0 ==> elapsed < duration
    }

    function RemainingSeconds(): (r: real)
      reads this
      ensures r >= 0.0
      ensures elapsed <= duration ==> r == duration - elapsed
      ensures elapsed >= duration ==> r == 0.0
    {
      if duration - elapsed > 0.0 then duration - elapsed else 0.0
    }

    function NormalizedProgress(): (r: real)
      reads this
      ensures 0.0 <= r <= 1.0
      ensures duration <= 0.0 ==> r == 0.0
      ensures duration > 0.0 && 0.0 <= elapsed <= duration ==> r * duration == elapsed
    {
      if duration > 0.0 then Clamp01(elapsed / duration) else 0.0
    }

    function IsCompleted(): (r: bool)
      reads this
      ensures r <==> duration > 0.0 && RemainingSeconds() == 0.0
    {
      elapsed >= duration && duration > 0.0
    }

    /** A negative argument (the default is -1) keeps the current duration. */
    method Start(d: real)
      modifies this`duration, this`elapsed, this`running
      ensures duration == if d >= 0.0 then d else old(duration)
      ensures elapsed == 0.0 && running && Valid()
    {
      if d >= 0.0 {
        duration := d;
      }
      elapsed := 0.0;
      running := true;
    }

    method Pause()
      modifies this`running
      ensures !running
      ensures old(Valid()) ==> Valid()
    {
      running := false;
    }

    /** Restarts only a timer that has not completed. */
    method Resume()
      modifies this`running
      ensures running == (old(running) || !IsCompleted())
      ensures old(Valid()) ==> Valid()
    {
      if !IsCompleted() {
        running := true;
      }
    }

    method Stop()
      modifies this`running, this`elapsed
      ensures !running && elapsed == 0.0 && Valid()
    {
      running := false;
      elapsed := 0.0;
    }

    /**
     * A running timer advances by `dt` and ticks with the new elapsed time; when a positive duration
     * is reached it stops and completes. A stopped timer ignores the update.
     */
    method Update(dt: real)
      modifies this`elapsed, this`running, this`events
      ensures !old(running) ==> elapsed == old(elapsed) && !running && events == old(events)
      ensures old(running) ==> elapsed == old(elapsed) + dt
      ensures old(running) && IsCompleted() ==> !running && events == old(events) + [Ticked(elapsed), Completed]
      ensures old(running) && !IsCompleted() ==> running && events == old(events) + [Ticked(elapsed)]
      ensures duration <= 0.0 ==> Completed !in events[|old(events)|..]
      ensures old(Valid()) ==> Valid()
    {
      if !running {
        return;
      }
      elapsed := elapsed + dt;
      events := events + [Ticked(elapsed)];
      if duration > 0.0 && elapsed >= duration {
        running := false;
        events := events + [Completed];
      }
    }
  }

  /** Completion fires at most once: after it, further updates are ignored until the timer is restarted. */
  method CompletesOnce(t: Timer, dt1: real, dt2: real)
    modifies t
    ensures |old(t.events)| <= |t.events|
    ensures forall i, j :: |old(t.events)| <= i < j < |t.events| && t.events[i] == Completed ==> t.events[j] != Completed
  {
    t.Update(dt1);
    t.Update(dt2);
  }

  /** A timer with no positive duration never completes, however long it runs. */
  method ZeroDurationNeverCompletes(t: Timer, dts: seq<real>)
    requires t.duration <= 0.0
    modifies t
    ensures |old(t.events)| <= |t.events|
    ensures Completed !in t.events[|old(t.events)|..]
  {
    var i := 0;
    while i < |dts|
      invariant 0 <= i <= |dts| && t.duration == old(t.duration) && |old(t.events)| <= |t.events|
      invariant Completed !in t.events[|old(t.events)|..]
    {
      ghost var before := t.events;
      t.Update(dts[i]);
      assert t.events[|old(t.events)|..] == before[|old(t.events)|..] + t.events[|before|..];
      i := i + 1;
    }
  }
}
