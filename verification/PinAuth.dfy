/**
 PIN authentication with a lockout: the comparison, one attempt, and the bound on how many
 wrong PINs can be tried. Times are in milliseconds, and the clock is passed in.
 */
module PinAuth {
  import opened Wrappers

  /** A PIN's octets. */
  type Pin = seq<bv8>

  datatype Config = Config(requireGuestPin: bool, guestPin: Option<Pin>, hostPin: Option<Pin>,
                           maxAttempts: nat, lockoutSecs: nat)

  datatype Result =
    | GuestAuthenticated
    | HostAuthenticated
    | IncorrectPin(attemptsRemaining: nat)
    | LockedOut(retryAfterSecs: nat)
    | NoPinRequired

  /** Failed attempts of one participant. */
  datatype Tracker = Tracker(failedAttempts: nat, lockoutUntil: Option<nat>)

  const NEW_TRACKER := Tracker(0, None)

  /** Compares every octet whatever the first difference. */
  method ConstantTimeEq(a: Pin, b: Pin) returns (equal: bool)
    ensures equal <==> a == b
  {
    if |a| != |b| {
      var acc: bv8 := 0;
      for i := 0 to |a| {
        acc := acc | a[i];
      }
      return false;
    }
    var diff: bv8 := 0;
    for i := 0 to |a|
      invariant diff == 0 <==> a[..i] == b[..i]
    {
      assert a[..i + 1] == a[..i] + [a[i]] && b[..i + 1] == b[..i] + [b[i]];
      OrOfXor(diff, a[i], b[i]);
      diff := diff | (a[i] ^ b[i]);
    }
    assert a[..|a|] == a && b[..|b|] == b;
    equal := diff == 0;
  }

  lemma OrOfXor(d: bv8, x: bv8, y: bv8)
    ensures d | (x ^ y) == 0 <==> d == 0 && x == y
  {
  }

  predicate IsLocked(t: Tracker, now: nat) {
    t.lockoutUntil.Some? && now < t.lockoutUntil.value
  }

  function Failed(t: Tracker, c: Config, now: nat): Tracker {
    var attempts := t.failedAttempts + 1;
    Tracker(attempts, if attempts >= c.maxAttempts then Some(now + c.lockoutSecs * 1000) else t.lockoutUntil)
  }

  function Remaining(c: Config, t: Tracker): nat {
    if c.maxAttempts > t.failedAttempts then c.maxAttempts - t.failedAttempts else 0
  }

  /** The host PIN lets in a host only where it is not the guest PIN too. */
  predicate IsHostPin(c: Config, pin: Pin) {
    c.hostPin == Some(pin) && c.guestPin != Some(pin)
  }

  /** Whether a PIN is looked at, and found wrong. */
  predicate Fails(c: Config, t: Tracker, pin: Pin, now: nat) {
    c.requireGuestPin && !IsLocked(t, now) && c.guestPin != Some(pin) && !IsHostPin(c, pin)
  }

  /** One attempt: the tracker after it, and its result. */
  function Attempt(c: Config, t: Tracker, pin: Pin, now: nat): (Tracker, Result) {
    if IsLocked(t, now) then (t, LockedOut((t.lockoutUntil.value - now) / 1000))
    else if IsHostPin(c, pin) then (NEW_TRACKER, HostAuthenticated)
    else if !c.requireGuestPin then (t, NoPinRequired)
    else if c.guestPin == Some(pin) then (NEW_TRACKER, GuestAuthenticated)
    else
      var after := Failed(t, c, now);
      (after, if Remaining(c, after) == 0 then LockedOut(c.lockoutSecs) else IncorrectPin(Remaining(c, after)))
  }

  type Trackers = map<string, Tracker>

  function TrackerOf(m: Trackers, p: string): Tracker {
    if p in m then m[p] else NEW_TRACKER
  }

  predicate PinsAsked(c: Config) {
    c.requireGuestPin || c.hostPin.Some?
  }

  /** How an attempt is answered. */
  function Answered(c: Config, t: Tracker, pin: Pin, now: nat): Result {
    if PinsAsked(c) then Attempt(c, t, pin, now).1 else NoPinRequired
  }

  class PinAuthenticator {
    const config: Config
    var attempts: Trackers

    constructor (config: Config)
      ensures this.config == config && attempts == map[]
    {
      this.config := config;
      attempts := map[];
    }

    method Authenticate(p: string, pin: Pin, now: nat) returns (r: Result)
      modifies `attempts
      ensures r == Answered(config, TrackerOf(old(attempts), p), pin, now)
      ensures attempts == TrackersStep(config, old(attempts), Op(p, Try(pin, now)))
    {
      if !config.requireGuestPin && config.hostPin.None? {
        return NoPinRequired;
      }
      var tracker := TrackerOf(attempts, p);
      attempts := attempts[p := tracker];
      if IsLocked(tracker, now) {
        return LockedOut((tracker.lockoutUntil.value - now) / 1000);
      }
      var hostMatch, guestMatch, pinsAreSame := false, false, false;
      if config.hostPin.Some? {
        hostMatch := ConstantTimeEq(pin, config.hostPin.value);
      }
      if config.guestPin.Some? {
        guestMatch := ConstantTimeEq(pin, config.guestPin.value);
      }
      if config.hostPin.Some? && config.guestPin.Some? {
        pinsAreSame := ConstantTimeEq(config.hostPin.value, config.guestPin.value);
      }
      if hostMatch && !guestMatch && !pinsAreSame {
        attempts := attempts[p := NEW_TRACKER];
        return HostAuthenticated;
      }
      if !config.requireGuestPin {
        return NoPinRequired;
      }
      if guestMatch {
        attempts := attempts[p := NEW_TRACKER];
        return GuestAuthenticated;
      }
      tracker := RecordFailure(tracker, now);
      attempts := attempts[p := tracker];
      if Remaining(config, tracker) == 0 {
        r := LockedOut(config.lockoutSecs);
      } else {
        r := IncorrectPin(Remaining(config, tracker));
      }
    }

    method RecordFailure(before: Tracker, now: nat) returns (t: Tracker)
      ensures t == Failed(before, config, now)
    {
      t := before.(failedAttempts := before.failedAttempts + 1);
      if t.failedAttempts >= config.maxAttempts {
        t := t.(lockoutUntil := Some(now + config.lockoutSecs * 1000));
      }
    }

    /** Clears a participant's lockout. */
    method ClearLockout(p: string)
      modifies `attempts
      ensures attempts == TrackersStep(config, old(attempts), Op(p, Clear))
    {
      if p in attempts {
        attempts := attempts[p := NEW_TRACKER];
      }
    }
  }

  // ---- how many wrong PINs can be tried -------------------------------

  datatype Act = Try(pin: Pin, now: nat) | Clear

  /** One participant's tracker, the times wrong PINs were evaluated since it was last reset, and the clock. */
  datatype Watch = Watch(tracker: Tracker, failures: seq<nat>, clock: nat)

  function WatchStep(c: Config, w: Watch, act: Act): Watch {
    match act
    case Try(pin, now) =>
      if !PinsAsked(c) then w.(clock := now)
      else
        var (tracker, result) := Attempt(c, w.tracker, pin, now);
        Watch(tracker,
              if result.HostAuthenticated? || result.GuestAuthenticated? then []
              else if Fails(c, w.tracker, pin, now) then w.failures + [now]
              else w.failures, now)
    case Clear => Watch(NEW_TRACKER, [], w.clock)
  }

  function WatchRun(c: Config, w: Watch, acts: seq<Act>): Watch
    decreases |acts|
  {
    if acts == [] then w else WatchRun(c, WatchStep(c, w, acts[0]), acts[1..])
  }

  /** The clock does not go back. */
  predicate Forward(clock: nat, acts: seq<Act>)
    decreases |acts|
  {
    acts == [] ||
    (if acts[0].Try? then clock <= acts[0].now && Forward(acts[0].now, acts[1..]) else Forward(clock, acts[1..]))
  }

  /** The failures after which the participant is locked out: the last allowed one and all after it. */
  function FirstLocking(c: Config): nat {
    if c.maxAttempts == 0 then 0 else c.maxAttempts - 1
  }

  /** The tracker counts the failures, and each that locks holds off the next for the lockout. */
  predicate Tracked(c: Config, w: Watch) {
    && w.tracker.failedAttempts == |w.failures| && (!c.requireGuestPin ==> w.failures == [])
    && w.tracker.lockoutUntil ==
       (if |w.failures| > FirstLocking(c) then Some(w.failures[|w.failures| - 1] + c.lockoutSecs * 1000) else None)
    && (forall i :: 0 <= i < |w.failures| ==> w.failures[i] <= w.clock)
    && (forall i :: 0 <= i < |w.failures| - 1 ==> w.failures[i] <= w.failures[i + 1])
    && (forall i :: FirstLocking(c) <= i < |w.failures| - 1 ==>
         w.failures[i + 1] >= w.failures[i] + c.lockoutSecs * 1000)
  }

  lemma FailureTracks(c: Config, w: Watch, now: nat)
    requires Tracked(c, w) && c.requireGuestPin && w.clock <= now && !IsLocked(w.tracker, now)
    ensures Tracked(c, Watch(Failed(w.tracker, c, now), w.failures + [now], now))
  {
  }

  lemma QuietTracks(c: Config, w: Watch, now: nat)
    requires Tracked(c, w) && w.clock <= now
    ensures Tracked(c, w.(clock := now)) && Tracked(c, Watch(NEW_TRACKER, [], now))
  {
  }

  lemma StepTracks(c: Config, w: Watch, act: Act)
    requires Tracked(c, w) && (act.Try? ==> w.clock <= act.now)
    ensures Tracked(c, WatchStep(c, w, act))
  {
    hide Tracked, Failed, IsLocked;
    match act
    case Clear => QuietTracks(c, w, w.clock);
    case Try(pin, now) =>
      QuietTracks(c, w, now);
      if Fails(c, w.tracker, pin, now) {
        FailureTracks(c, w, now);
      }
  }

  lemma {:induction false} RunTracks(c: Config, w: Watch, acts: seq<Act>)
    requires Tracked(c, w) && Forward(w.clock, acts)
    ensures Tracked(c, WatchRun(c, w, acts))
    decreases |acts|
  {
    hide Tracked, WatchStep;
    if acts != [] {
      StepTracks(c, w, acts[0]);
      ClockIs(c, w, acts[0]);
      RunTracks(c, WatchStep(c, w, acts[0]), acts[1..]);
    }
  }

  lemma ClockIs(c: Config, w: Watch, act: Act)
    ensures WatchStep(c, w, act).clock == if act.Try? then act.now else w.clock
  {
    hide Attempt, Fails;
  }

  /** Failures from one that locks onwards lie a lockout apart. */
  lemma {:induction false} LockingSpread(failures: seq<nat>, first: nat, lockout: nat, i: nat, j: nat)
    requires first <= i <= j < |failures|
    requires forall k :: first <= k < |failures| - 1 ==> failures[k + 1] >= failures[k] + lockout
    ensures failures[j] >= failures[i] + (j - i) * lockout
    decreases j
  {
    if i < j {
      LockingSpread(failures, first, lockout, i, j - 1);
      assert (j - i) * lockout == (j - 1 - i) * lockout + lockout;
    }
  }

  lemma {:induction false} Ordered(failures: seq<nat>, i: nat, j: nat)
    requires i <= j < |failures| && forall k :: 0 <= k < |failures| - 1 ==> failures[k] <= failures[k + 1]
    ensures failures[i] <= failures[j]
    decreases j
  {
    if i < j {
      Ordered(failures, i, j - 1);
    }
  }

  const FRESH := Watch(NEW_TRACKER, [], 0)

  function Whole(span: nat, lockout: nat): nat
    requires lockout > 0
  {
    span / lockout
  }

  /** How many wrong PINs a time span leaves room for: the attempts allowed, and one a lockout. */
  function Allowed(c: Config, span: nat): nat
    requires c.lockoutSecs > 0
  {
    FirstLocking(c) + 1 + Whole(span, c.lockoutSecs * 1000)
  }

  /**
   The bound, over every run with a clock that does not go back: between two resets of the
   tracker, the wrong PINs evaluated within any span number at most the attempts allowed (one
   at least) and one for each whole lockout in the span. An expired lockout does not start
   the count again.
   */
  lemma WrongPinsAreBounded(c: Config, acts: seq<Act>, i: nat, j: nat)
    requires Forward(0, acts) && c.lockoutSecs > 0
    requires i <= j < |WatchRun(c, FRESH, acts).failures|
    ensures var failures := WatchRun(c, FRESH, acts).failures;
            failures[i] <= failures[j] && j - i + 1 <= Allowed(c, failures[j] - failures[i])
  {
    hide WatchRun, Forward;
    RunTracks(c, FRESH, acts);
    var failures, lockout := WatchRun(c, FRESH, acts).failures, c.lockoutSecs * 1000;
    var from := if i >= FirstLocking(c) then i else FirstLocking(c);
    Ordered(failures, i, j);
    if from <= j {
      LockingSpread(failures, FirstLocking(c), lockout, from, j);
      Ordered(failures, i, from);
      WholeSpans(failures[j] - failures[i], j - from, lockout);
    } else {
      WholeSpans(failures[j] - failures[i], 0, lockout);
    }
  }

  lemma WholeSpans(span: nat, n: nat, lockout: nat)
    requires lockout > 0 && span >= n * lockout
    ensures Whole(span, lockout) >= n
  {
    var q := span / lockout;
    assert span == q * lockout + span % lockout;
    assert span < (q + 1) * lockout;
  }

  /** Locked out, by the failures since the last reset: one lockout from the last, once there are as many as allowed. */
  predicate LockedOutAt(c: Config, failures: seq<nat>, now: nat) {
    |failures| > FirstLocking(c) && now < failures[|failures| - 1] + c.lockoutSecs * 1000
  }

  /** How an attempt must be answered, from the configuration and the failures since the last reset. */
  predicate AnsweredBy(c: Config, failures: seq<nat>, pin: Pin, now: nat, r: Result) {
    var n, locked := |failures|, LockedOutAt(c, failures, now);
    var host, guest := c.hostPin == Some(pin) && c.guestPin != Some(pin), c.guestPin == Some(pin);
    && (r.HostAuthenticated? <==> !locked && host)
    && (r.GuestAuthenticated? <==> !locked && c.requireGuestPin && guest)
    && (r.NoPinRequired? <==> !locked && !host && !c.requireGuestPin)
    && (r.IncorrectPin? <==> !locked && !host && !guest && c.requireGuestPin && n + 1 < c.maxAttempts)
    && (r.IncorrectPin? ==> r.attemptsRemaining == c.maxAttempts - n - 1)
    && (r.LockedOut? ==>
         r.retryAfterSecs ==
         if locked then (failures[n - 1] + c.lockoutSecs * 1000 - now) / 1000 else c.lockoutSecs)
  }

  /**
   Over every run, the configuration and the history decide every answer: the host PIN alone lets in
   a host, the guest PIN a guest, and who is locked out and for how long, and how many attempts
   remain, follows from the wrong PINs evaluated since the last reset.
   */
  lemma HistoryDecides(c: Config, acts: seq<Act>, pin: Pin, now: nat)
    requires Forward(0, acts)
    ensures var w := WatchRun(c, FRESH, acts);
            && (IsLocked(w.tracker, now) <==> LockedOutAt(c, w.failures, now))
            && AnsweredBy(c, w.failures, pin, now, Answered(c, w.tracker, pin, now))
  {
    hide WatchRun, Forward;
    RunTracks(c, FRESH, acts);
  }

  // ---- many participants ----------------------------------------------

  /** What happens at the authenticator, and to whom. */
  datatype Op = Op(who: string, act: Act)

  function TrackersStep(c: Config, m: Trackers, op: Op): Trackers {
    match op.act
    case Try(pin, now) => if PinsAsked(c) then m[op.who := Attempt(c, TrackerOf(m, op.who), pin, now).0] else m
    case Clear => if op.who in m then m[op.who := NEW_TRACKER] else m
  }

  function TrackersRun(c: Config, m: Trackers, ops: seq<Op>): Trackers
    decreases |ops|
  {
    if ops == [] then m else TrackersRun(c, TrackersStep(c, m, ops[0]), ops[1..])
  }

  function Projected(ops: seq<Op>, p: string): seq<Act> {
    if ops == [] then [] else (if ops[0].who == p then [ops[0].act] else []) + Projected(ops[1..], p)
  }

  /** Participants do not interfere: each one's tracker is as in a run with only their own acts. */
  lemma {:induction false} TrackersProject(c: Config, m: Trackers, ops: seq<Op>, p: string, w: Watch)
    requires TrackerOf(m, p) == w.tracker
    ensures TrackerOf(TrackersRun(c, m, ops), p) == WatchRun(c, w, Projected(ops, p)).tracker
    decreases |ops|
  {
    hide Attempt, Fails;
    if ops != [] {
      var op, rest := ops[0], Projected(ops[1..], p);
      if op.who == p {
        assert ([op.act] + rest)[0] == op.act && ([op.act] + rest)[1..] == rest;
        TrackersProject(c, TrackersStep(c, m, op), ops[1..], p, WatchStep(c, w, op.act));
      } else {
        assert [] + rest == rest;
        TrackersProject(c, TrackersStep(c, m, op), ops[1..], p, w);
      }
    }
  }

  /** Among any others, a participant is answered as their own wrong PINs since their own last reset decide. */
  lemma OwnHistoryDecides(c: Config, ops: seq<Op>, p: string, pin: Pin, now: nat)
    requires Forward(0, Projected(ops, p))
    ensures AnsweredBy(c, WatchRun(c, FRESH, Projected(ops, p)).failures, pin, now,
                       Answered(c, TrackerOf(TrackersRun(c, map[], ops), p), pin, now))
  {
    hide AnsweredBy, Answered, TrackersRun, WatchRun, Forward, Projected;
    TrackersProject(c, map[], ops, p, FRESH);
    HistoryDecides(c, Projected(ops, p), pin, now);
  }

  // ---- the bound is met -----------------------------------------------

  lemma {:induction false} OneMoreAct(c: Config, w: Watch, acts: seq<Act>, act: Act)
    ensures WatchRun(c, w, acts + [act]) == WatchStep(c, WatchRun(c, w, acts), act)
    ensures Forward(w.clock, acts) && (act.Try? ==> WatchRun(c, w, acts).clock <= act.now) ==>
              Forward(w.clock, acts + [act])
    decreases |acts|
  {
    hide WatchStep;
    if acts == [] {
      assert [act][1..] == [] && acts + [act] == [act];
    } else {
      ClockIs(c, w, acts[0]);
      OneMoreAct(c, WatchStep(c, w, acts[0]), acts[1..], act);
      assert (acts + [act])[1..] == acts[1..] + [act];
    }
  }

  predicate Wrong(c: Config, pin: Pin) {
    c.requireGuestPin && c.guestPin != Some(pin) && !IsHostPin(c, pin)
  }

  /** So many failures, the first at 0 and the last at `last`, all of them counted. */
  predicate Failing(c: Config, w: Watch, n: nat, last: nat) {
    && |w.failures| == w.tracker.failedAttempts == n && w.clock == last
    && (n > 0 ==> w.failures[0] == 0 && w.failures[n - 1] == last)
    && w.tracker.lockoutUntil == if n > FirstLocking(c) then Some(last + c.lockoutSecs * 1000) else None
  }

  /** A wrong PIN tried as soon as there is no lockout is one more failure, and from the last one allowed on it locks. */
  lemma OneMoreFailure(c: Config, w: Watch, n: nat, last: nat, pin: Pin, now: nat)
    requires Wrong(c, pin) && Failing(c, w, n, last)
    requires now == if n > FirstLocking(c) then last + c.lockoutSecs * 1000 else last
    requires n == 0 ==> last == 0
    ensures Failing(c, WatchStep(c, w, Try(pin, now)), n + 1, now)
  {
  }

  /** Tries without a pause while there is no lockout. */
  lemma {:induction false} FailAtOnce(c: Config, pin: Pin, n: nat) returns (acts: seq<Act>)
    requires Wrong(c, pin) && n <= FirstLocking(c) + 1
    ensures Forward(0, acts) && Failing(c, WatchRun(c, FRESH, acts), n, 0)
  {
    hide WatchStep, Failing;
    if n == 0 {
      acts := [];
      assert Failing(c, FRESH, 0, 0) by { NothingFailed(c); }
    } else {
      acts := FailAtOnce(c, pin, n - 1);
      OneMoreAct(c, FRESH, acts, Try(pin, 0));
      OneMoreFailure(c, WatchRun(c, FRESH, acts), n - 1, 0, pin, 0);
      FailingClock(c, WatchRun(c, FRESH, acts), n - 1, 0);
      acts := acts + [Try(pin, 0)];
    }
  }

  lemma NothingFailed(c: Config)
    ensures Failing(c, FRESH, 0, 0)
  {
  }

  lemma FailingClock(c: Config, w: Watch, n: nat, last: nat)
    requires Failing(c, w, n, last)
    ensures w.clock == last
  {
  }

  /** Then one try at the end of each lockout: every one is evaluated, and locks again. */
  lemma {:induction false} FailOncePerLockout(c: Config, pin: Pin, k: nat) returns (acts: seq<Act>)
    requires Wrong(c, pin)
    ensures Forward(0, acts)
    ensures Failing(c, WatchRun(c, FRESH, acts), FirstLocking(c) + 1 + k, k * (c.lockoutSecs * 1000))
  {
    hide WatchStep, Failing, WatchRun, Forward, FirstLocking;
    if k == 0 {
      acts := FailAtOnce(c, pin, FirstLocking(c) + 1);
    } else {
      var lockout := c.lockoutSecs * 1000;
      var n, last, now := FirstLocking(c) + k, (k - 1) * lockout, k * lockout;
      acts := FailOncePerLockout(c, pin, k - 1);
      assert now == last + lockout;
      OneMoreAct(c, FRESH, acts, Try(pin, now));
      OneMoreFailure(c, WatchRun(c, FRESH, acts), n, last, pin, now);
      FailingClock(c, WatchRun(c, FRESH, acts), n, last);
      acts := acts + [Try(pin, now)];
    }
  }

  /**
   The bound is met: whoever keeps trying at the end of each lockout has, over any number of them,
   exactly as many wrong PINs evaluated as the bound allows, and no more of them at once.
   */
  lemma BoundIsMet(c: Config, pin: Pin, k: nat) returns (acts: seq<Act>, failures: seq<nat>)
    requires Wrong(c, pin) && c.lockoutSecs > 0
    ensures Forward(0, acts) && failures == WatchRun(c, FRESH, acts).failures && failures != []
    ensures failures[0] == 0 && failures[|failures| - 1] == k * (c.lockoutSecs * 1000)
    ensures |failures| == Allowed(c, failures[|failures| - 1])
  {
    hide WatchRun, Forward, WatchStep;
    acts := FailOncePerLockout(c, pin, k);
    failures := WatchRun(c, FRESH, acts).failures;
    WholeIs(k, c.lockoutSecs * 1000);
  }

  lemma WholeIs(k: nat, lockout: nat)
    requires lockout > 0
    ensures Whole(k * lockout, lockout) == k
  {
    WholeSpans(k * lockout, k, lockout);
    var q := k * lockout / lockout;
    assert k * lockout == q * lockout + k * lockout % lockout;
    OneMoreTime(q, k, lockout);
  }

  lemma {:induction false} OneMoreTime(q: nat, k: nat, lockout: nat)
    ensures q > k ==> q * lockout >= k * lockout + lockout
  {
    if q > k {
      OneMoreTime(q - 1, k, lockout);
      assert q * lockout == (q - 1) * lockout + lockout;
    }
  }
}
