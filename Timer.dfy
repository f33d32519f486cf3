/** The expiration timer of src/utils/Timer.ts: a short repeating interval whose
    callback raises the timer's event once the expiration time has come. The
    clock (whole seconds) is a parameter of the members that read it; the
    browser's interval table is `IntervalScheduler`. */
module Timers {
  import opened Wrappers

  /** Seconds between two checks of the expiration, at most. */
  const TimerDuration: int := 5

  /** A handler registered on the timer's event, by identity. */
  type Callback = nat

  /** `window.setInterval` / `window.clearInterval`: the live intervals, each
      handle (a positive integer, never reused) with its period in milliseconds. */
  class IntervalScheduler {
    var live: map<nat, int>
    var next: nat

    ghost predicate Valid()
      reads this
    {
      0 < next && forall h :: h in live ==> 0 < h < next
    }

    constructor()
      ensures Valid() && live == map[]
    {
      live := map[];
      next := 1;
    }

    /** A new interval, under a handle no live interval has. */
    method SetInterval(period: int) returns (h: nat)
      requires Valid()
      modifies this
      ensures Valid()
      ensures h > 0 && h !in old(live) && h == old(next) && next == old(next) + 1
      ensures live == old(live)[h := period]
    {
      h := next;
      live := live[h := period];
      next := next + 1;
    }

    method ClearInterval(h: nat)
      requires Valid()
      modifies this
      ensures Valid()
      ensures live == old(live) - {h} && next == old(next)
    {
      live := live - {h};
    }
  }

  /** What a timer shows: its expiration, the period of its live interval (None
      when it has no handle) and how often it has raised its event. */
  datatype TimerState = TimerState(expiration: int, interval: Option<int>, raised: nat)

  /** A new timer: no handle, expiration 0, never raised. */
  const NewTimerState: TimerState := TimerState(0, None, 0)

  /** The duration `init` uses: a duration of 0 or less becomes 1. */
  function Clamp(duration: int): (d: int)
    ensures d >= 1
    ensures duration > 0 ==> d == duration
    ensures duration <= 0 ==> d == 1
  {
    if duration <= 0 then 1 else duration
  }

  /** The interval period in seconds: the duration, but at most `TimerDuration`. */
  function Period(d: int): (p: int)
    ensures p <= TimerDuration && p <= d
    ensures p == TimerDuration || p == d
  {
    if d < TimerDuration then d else TimerDuration
  }

  /** `init` leaves a timer alone that is armed for the same expiration. */
  predicate Skips(s: TimerState, duration: int, now: int) {
    s.expiration == now + Clamp(duration) && s.interval.Some?
  }

  /** The effect of `init(duration)` with the clock at `now`. */
  function InitStep(s: TimerState, duration: int, now: int): TimerState {
    if Skips(s, duration, now) then s
    else TimerState(now + Clamp(duration), Some(Period(Clamp(duration)) * 1000), s.raised)
  }

  /** The effect of `cancel()`. */
  function CancelStep(s: TimerState): TimerState {
    s.(interval := None)
  }

  /** The effect of the interval callback with the clock at `now`. */
  function CallbackStep(s: TimerState, now: int): TimerState {
    if s.expiration <= now then CancelStep(s).(raised := s.raised + 1) else s
  }

  /** `init` aims at `now` plus the clamped duration and arms an interval of at
      most five seconds, or changes nothing when already armed for exactly that
      expiration; a second identical `init` is a no-op. */
  lemma InitArms(s: TimerState, duration: int, now: int)
    ensures var t := InitStep(s, duration, now);
            && t.expiration == now + Clamp(duration)
            && t.interval.Some?
            && t.raised == s.raised
            && (Skips(s, duration, now) <==> t == s)
            && (!Skips(s, duration, now) ==>
                  1000 <= t.interval.value <= TimerDuration * 1000
                  && t.interval.value == 1000 * (if Clamp(duration) < 5 then Clamp(duration) else 5))
            && InitStep(t, duration, now) == t
  {
  }

  /** `cancel` disarms and is idempotent; it changes neither the expiration nor
      the raise count. */
  lemma CancelIdempotent(s: TimerState)
    ensures CancelStep(CancelStep(s)) == CancelStep(s)
    ensures CancelStep(s).interval.None?
    ensures CancelStep(s).expiration == s.expiration && CancelStep(s).raised == s.raised
    ensures s.interval.None? ==> CancelStep(s) == s
  {
  }

  /** The callback raises the event (once) exactly when the expiration has come,
      disarming the timer; before that it changes nothing. */
  lemma CallbackFiresIff(s: TimerState, now: int)
    ensures CallbackStep(s, now).raised == s.raised + 1 <==> s.expiration <= now
    ensures CallbackStep(s, now).raised == s.raised || CallbackStep(s, now).raised == s.raised + 1
    ensures s.expiration <= now ==> CallbackStep(s, now).interval.None?
    ensures s.expiration > now ==> CallbackStep(s, now) == s
  {
  }

  /** After a re-arming `init(duration)` at time `t0`, a callback at time `t`
      raises the event iff `t` is at least `t0` plus the clamped duration: never
      earlier, however short the interval. */
  lemma FiresOnlyWhenDue(s: TimerState, duration: int, t0: int, t: int)
    requires !Skips(s, duration, t0)
    ensures CallbackStep(InitStep(s, duration, t0), t).raised > s.raised <==> t >= t0 + Clamp(duration)
  {
  }

  /** `Event`'s `removeHandler`: drops the first registration of `cb`. */
  function RemoveFirst(hs: seq<Callback>, cb: Callback): (r: seq<Callback>)
    ensures cb !in hs ==> r == hs
    ensures cb in hs ==> |r| == |hs| - 1 && multiset(r) == multiset(hs) - multiset{cb}
  {
    if hs == [] then []
    else
      assert hs == [hs[0]] + hs[1..];
      if hs[0] == cb then hs[1..] else [hs[0]] + RemoveFirst(hs[1..], cb)
  }

  class Timer {
    const name: string
    const scheduler: IntervalScheduler
    var handle: Option<nat>
    var expiration: int
    /** The handlers registered on the timer's event. */
    var handlers: seq<Callback>
    /** How many times the event was raised. */
    var raised: nat

    /** The timer's handle, when it has one, names a live interval. */
    ghost predicate Valid()
      reads this, scheduler
    {
      scheduler.Valid() && (handle.Some? ==> handle.value in scheduler.live)
    }

    function State(): TimerState
      reads this, scheduler
    {
      TimerState(
        expiration,
        if handle.Some? && handle.value in scheduler.live then Some(scheduler.live[handle.value]) else None,
        raised)
    }

    constructor(name: string, scheduler: IntervalScheduler)
      requires scheduler.Valid()
      ensures Valid() && State() == NewTimerState && handle.None? && handlers == []
      ensures this.name == name && this.scheduler == scheduler
    {
      this.name := name;
      this.scheduler := scheduler;
      handle := None;
      expiration := 0;
      handlers := [];
      raised := 0;
    }

    /** Clears the interval, if any, and forgets the handle. */
    method Cancel()
      requires Valid()
      modifies this, scheduler
      ensures Valid() && handle.None?
      ensures State() == CancelStep(old(State()))
      ensures scheduler.live == if old(handle).Some? then old(scheduler.live) - {old(handle).value} else old(scheduler.live)
      ensures handlers == old(handlers) && scheduler.next == old(scheduler.next)
    {
      if handle.Some? {
        scheduler.ClearInterval(handle.value);
        handle := None;
      }
    }

    /** Aims the timer at `now + duration`, re-arming its interval unless it is
      already armed for that expiration. */
    method Init(duration: int, now: int)
      requires Valid()
      modifies this, scheduler
      ensures Valid()
      ensures State() == InitStep(old(State()), duration, now)
      ensures handlers == old(handlers)
      ensures Skips(old(State()), duration, now) ==> handle == old(handle) && scheduler.live == old(scheduler.live)
      ensures !Skips(old(State()), duration, now) ==>
                handle.Some? && handle.value !in old(scheduler.live)
                && scheduler.live
                   == (if old(handle).Some? then old(scheduler.live) - {old(handle).value} else old(scheduler.live))
                      [handle.value := Period(Clamp(duration)) * 1000]
    {
      var d := duration;
      if d <= 0 {
        d := 1;
      }
      var exp := now + d;
      if expiration == exp && handle.Some? {
        return;
      }
      Cancel();
      expiration := exp;
      var period := TimerDuration;
      if d < period {
        period := d;
      }
      var h := scheduler.SetInterval(period * 1000);
      handle := Some(h);
    }

    /** The interval callback: once the expiration has come, cancel and raise. */
    method Callback(now: int)
      requires Valid()
      modifies this, scheduler
      ensures Valid()
      ensures State() == CallbackStep(old(State()), now)
      ensures handlers == old(handlers)
      ensures old(expiration) <= now ==>
                && handle.None?
                && scheduler.live == if old(handle).Some? then old(scheduler.live) - {old(handle).value} else old(scheduler.live)
      ensures old(expiration) > now ==> handle == old(handle) && scheduler.live == old(scheduler.live)
    {
      if expiration <= now {
        Cancel();
        raised := raised + 1;
      }
    }

    method AddHandler(cb: Callback)
      modifies this
      ensures handlers == old(handlers) + [cb]
      ensures handle == old(handle) && expiration == old(expiration) && raised == old(raised)
    {
      handlers := handlers + [cb];
    }

    method RemoveHandler(cb: Callback)
      modifies this
      ensures handlers == RemoveFirst(old(handlers), cb)
      ensures handle == old(handle) && expiration == old(expiration) && raised == old(raised)
    {
      handlers := RemoveFirst(handlers, cb);
    }
  }
}
