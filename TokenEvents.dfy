/** The access-token lifetime events of src/AccessTokenEvents.ts: an "expiring"
    timer that fires a notification window before the token's end, and an
    "expired" timer that fires just after it. */
module TokenEvents {
  import opened Wrappers
  import opened Timers

  /** Seconds before expiration at which "expiring" is raised, by default. */
  const DefaultExpiringNotificationTime: int := 60

  /** What `load` reads of the user: the access token and the remaining lifetime
      in seconds (`expires_in`), either of which may be missing. */
  datatype Token = Token(accessToken: Option<string>, expiresIn: Option<int>)

  /** Timers are registered only for a present (non-empty) access token with a
      known remaining lifetime. */
  predicate Active(t: Token) {
    t.accessToken.Some? && t.accessToken.value != "" && t.expiresIn.Some?
  }

  /** The duration the expiring timer is armed with: the lifetime less the
      window, but at least 1. */
  function ExpiringDelay(duration: int, window: int): (d: int)
    ensures d >= 1
    ensures duration - window > 0 ==> d == duration - window
    ensures duration - window <= 0 ==> d == 1
  {
    if duration - window <= 0 then 1 else duration - window
  }

  /** What `load` does to the expiring timer. */
  function LoadExpiring(s: TimerState, t: Token, window: int, now: int): TimerState {
    if Active(t) && t.expiresIn.value > 0 then InitStep(s, ExpiringDelay(t.expiresIn.value, window), now)
    else CancelStep(s)
  }

  /** What `load` does to the expired timer. */
  function LoadExpired(s: TimerState, t: Token, now: int): TimerState {
    if Active(t) then InitStep(s, t.expiresIn.value + 1, now) else CancelStep(s)
  }

  /** The rules of `load`: without an active token both timers are disarmed;
      with one, the expiring timer aims at the lifetime less the window (at least
      one second) while time remains and is disarmed otherwise, and the expired
      timer always aims one second past the lifetime, so that a token already
      past its lifetime still raises "expired" one second later. */
  lemma LoadRules(expiring: TimerState, expired: TimerState, t: Token, window: int, now: int)
    ensures !Active(t) ==>
              LoadExpiring(expiring, t, window, now).interval.None? && LoadExpired(expired, t, now).interval.None?
    ensures Active(t) && t.expiresIn.value > 0 ==>
              && LoadExpiring(expiring, t, window, now).interval.Some?
              && LoadExpiring(expiring, t, window, now).expiration
                 == now + (if t.expiresIn.value - window <= 0 then 1 else t.expiresIn.value - window)
    ensures Active(t) && t.expiresIn.value <= 0 ==> LoadExpiring(expiring, t, window, now).interval.None?
    ensures Active(t) ==>
              && LoadExpired(expired, t, now).interval.Some?
              && LoadExpired(expired, t, now).expiration
                 == now + (if t.expiresIn.value + 1 <= 0 then 1 else t.expiresIn.value + 1)
    ensures LoadExpiring(expiring, t, window, now).raised == expiring.raised
    ensures LoadExpired(expired, t, now).raised == expired.raised
  {
    if Active(t) {
      InitArms(expired, t.expiresIn.value + 1, now);
      if t.expiresIn.value > 0 {
        InitArms(expiring, ExpiringDelay(t.expiresIn.value, window), now);
      }
    }
  }

  /** With the default window, a token with 30 seconds left is announced as
      expiring after 1 second and as expired after 31. */
  lemma ThirtySecondsLeft(expiring: TimerState, expired: TimerState, token: string, now: int)
    requires token != ""
    ensures var t := Token(Some(token), Some(30));
            && LoadExpiring(expiring, t, DefaultExpiringNotificationTime, now).expiration == now + 1
            && LoadExpired(expired, t, now).expiration == now + 31
  {
    var t := Token(Some(token), Some(30));
    LoadRules(expiring, expired, t, DefaultExpiringNotificationTime, now);
  }

  class AccessTokenEvents {
    const window: int
    const expiring: Timer
    const expired: Timer

    /** Two distinct valid timers; when they share an interval table their
        handles differ. */
    ghost predicate Valid()
      reads this, expiring, expired, expiring.scheduler, expired.scheduler
    {
      && expiring != expired
      && expiring.Valid() && expired.Valid()
      && Apart(expiring, expired)
    }

    static ghost predicate Apart(a: Timer, b: Timer)
      reads a, b
    {
      a.scheduler == b.scheduler && a.handle.Some? && b.handle.Some? ==> a.handle.value != b.handle.value
    }

    /** `new AccessTokenEvents({...})`: a missing window is 60 seconds, a missing
        timer is a new one on the interval table `scheduler`. */
    constructor(window: Option<int>, expiringTimer: Option<Timer>, expiredTimer: Option<Timer>,
                scheduler: IntervalScheduler)
      requires scheduler.Valid()
      requires expiringTimer.Some? ==> expiringTimer.value.Valid()
      requires expiredTimer.Some? ==> expiredTimer.value.Valid()
      requires expiringTimer.Some? && expiredTimer.Some? ==>
                 expiringTimer.value != expiredTimer.value && Apart(expiringTimer.value, expiredTimer.value)
      ensures Valid()
      ensures this.window == if window.Some? then window.value else DefaultExpiringNotificationTime
      ensures expiringTimer.Some? ==> expiring == expiringTimer.value
      ensures expiringTimer.None? ==>
                fresh(expiring) && expiring.name == "Access token expiring" && expiring.State() == NewTimerState
      ensures expiredTimer.Some? ==> expired == expiredTimer.value
      ensures expiredTimer.None? ==>
                fresh(expired) && expired.name == "Access token expired" && expired.State() == NewTimerState
    {
      this.window := if window.Some? then window.value else DefaultExpiringNotificationTime;
      if expiringTimer.Some? {
        this.expiring := expiringTimer.value;
      } else {
        this.expiring := new Timer("Access token expiring", scheduler);
      }
      if expiredTimer.Some? {
        this.expired := expiredTimer.value;
      } else {
        this.expired := new Timer("Access token expired", scheduler);
      }
    }

    /** `_accessTokenExpiring.init(...)` or `.cancel()`, keeping the expired timer. */
    method LoadExpiringTimer(t: Token, now: int)
      requires Valid()
      modifies expiring, expiring.scheduler
      ensures Valid()
      ensures expiring.State() == LoadExpiring(old(expiring.State()), t, window, now)
      ensures expired.State() == old(expired.State())
      ensures expiring.handlers == old(expiring.handlers)
    {
      if Active(t) && t.expiresIn.value > 0 {
        var delay := t.expiresIn.value - window;
        if delay <= 0 {
          delay := 1;
        }
        expiring.Init(delay, now);
      } else {
        expiring.Cancel();
      }
    }

    /** `_accessTokenExpired.init(...)` or `.cancel()`, keeping the expiring timer. */
    method LoadExpiredTimer(t: Token, now: int)
      requires Valid()
      modifies expired, expired.scheduler
      ensures Valid()
      ensures expired.State() == LoadExpired(old(expired.State()), t, now)
      ensures expiring.State() == old(expiring.State())
      ensures expired.handlers == old(expired.handlers)
    {
      if Active(t) {
        expired.Init(t.expiresIn.value + 1, now);
      } else {
        expired.Cancel();
      }
    }

    /** `load(user)` with the clock at `now`. */
    method Load(t: Token, now: int)
      requires Valid()
      modifies expiring, expiring.scheduler, expired, expired.scheduler
      ensures Valid()
      ensures expiring.State() == LoadExpiring(old(expiring.State()), t, window, now)
      ensures expired.State() == LoadExpired(old(expired.State()), t, now)
      ensures expiring.handlers == old(expiring.handlers) && expired.handlers == old(expired.handlers)
    {
      LoadExpiringTimer(t, now);
      LoadExpiredTimer(t, now);
    }

    /** `unload()`: cancels both timers. */
    method Unload()
      requires Valid()
      modifies expiring, expiring.scheduler, expired, expired.scheduler
      ensures Valid()
      ensures expiring.State() == CancelStep(old(expiring.State()))
      ensures expired.State() == CancelStep(old(expired.State()))
      ensures expiring.handlers == old(expiring.handlers) && expired.handlers == old(expired.handlers)
    {
      expiring.Cancel();
      expired.Cancel();
    }

    method AddAccessTokenExpiring(cb: Callback)
      requires Valid()
      modifies expiring
      ensures Valid()
      ensures expiring.handlers == old(expiring.handlers) + [cb]
      ensures expired.handlers == old(expired.handlers)
      ensures expiring.State() == old(expiring.State()) && expired.State() == old(expired.State())
    {
      expiring.AddHandler(cb);
    }

    method RemoveAccessTokenExpiring(cb: Callback)
      requires Valid()
      modifies expiring
      ensures Valid()
      ensures expiring.handlers == RemoveFirst(old(expiring.handlers), cb)
      ensures expired.handlers == old(expired.handlers)
      ensures expiring.State() == old(expiring.State()) && expired.State() == old(expired.State())
    {
      expiring.RemoveHandler(cb);
    }

    method AddAccessTokenExpired(cb: Callback)
      requires Valid()
      modifies expired
      ensures Valid()
      ensures expired.handlers == old(expired.handlers) + [cb]
      ensures expiring.handlers == old(expiring.handlers)
      ensures expiring.State() == old(expiring.State()) && expired.State() == old(expired.State())
    {
      expired.AddHandler(cb);
    }

    method RemoveAccessTokenExpired(cb: Callback)
      requires Valid()
      modifies expired
      ensures Valid()
      ensures expired.handlers == RemoveFirst(old(expired.handlers), cb)
      ensures expiring.handlers == old(expiring.handlers)
      ensures expiring.State() == old(expiring.State()) && expired.State() == old(expired.State())
    {
      expired.RemoveHandler(cb);
    }
  }
}
