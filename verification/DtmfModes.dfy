/**
 The two modes of the DTMF handler, from the digits that enter them to the answer that ends them:
 who can become a host by typing the PIN, and which destinations can be dialled, are stated exactly,
 over every run and for every configuration.
 */
module DtmfModes {
  import opened Wrappers
  import opened DtmfCommands
  import opened DtmfRuns
  import opened DtmfBindings

  // ---- one digit ------------------------------------------------------

  /** A digit that is taken, and not for a duplicate. */
  predicate Taken(c: Config, q: Sequence, digit: char, now: nat) {
    Elapsed(now, q.startedAt) <= c.timeoutMs && !Duplicate(q, digit, now)
  }

  /**
   What a digit meets: a repeat of the last digit within 80 ms does nothing; after the timeout what was
   typed is forgotten first; and otherwise the digit is taken with what was typed before.
   */
  lemma DigitIsTakenExactlyWhen(c: Config, before: Sequence, digit: char, now: nat)
    ensures var q := if now > before.startedAt + c.timeoutMs then Cleared(before, now) else before;
            if before.lastDigit == Some(digit) && now < before.lastDigitTime + 80 then
              Press(c, before, digit, now) == (q, None)
            else Taken(c, q, digit, now) && Press(c, before, digit, now) == Press(c, q, digit, now)
  {
    hide OnPinDigit, OnDialDigit, OnCommandDigit;
  }

  /** Digits of a host command that are no participant's, where there is a PIN to ask for. */
  predicate AsksForPin(c: Config, digits: string) {
    c.hostPin.Some? && ParticipantCommand(c, digits).None? && IsHostCommand(c, digits)
  }

  /** The digits of dial-out, bound to nothing else. */
  predicate OnlyDialOut(c: Config, digits: string) {
    && digits == c.host.dialOut && ParticipantCommand(c, digits).None?
    && digits !in [c.host.muteAll, c.host.unmuteAll, c.host.lock, c.host.unlock, c.host.endConference]
    && (IsKick(c, digits) ==> Kicked(c, digits).None?)
  }

  lemma ModesMatchExactlyWhen(c: Config, digits: string)
    ensures MatchCommand(c, digits, Participant) == Some(EnterHostPin) <==> AsksForPin(c, digits)
    ensures MatchCommand(c, digits, Host) == Some(EnterDialOut) <==> OnlyDialOut(c, digits)
    ensures MatchCommand(c, digits, Host) != Some(EnterHostPin)
    ensures MatchCommand(c, digits, Participant) != Some(EnterDialOut)
  {
    hide ParseNumber, LongestHostCommandLength, IsHostCommandPrefix;
  }

  /** Just in a mode: no digits yet, nothing answered, and the clock runs from this digit. */
  predicate Entered(q: Sequence, after: Sequence, out: Output, digit: char, now: nat) {
    && out == None && after.digits == "" && after.isHost == q.isHost
    && after.startedAt == after.lastDigitTime == now && after.lastDigit == Some(digit)
  }

  /**
   Outside the modes a digit enters the PIN mode exactly for someone who is no host and has completed
   a host command, and the dial-out mode exactly for a host who has completed dial-out.
   */
  lemma ModesAreEnteredExactlyWhen(c: Config, q: Sequence, digit: char, now: nat)
    requires !q.enteringPin && !q.enteringDialout && Taken(c, q, digit, now)
    ensures var (after, out) := Press(c, q, digit, now);
            && (after.enteringPin <==> !q.isHost && AsksForPin(c, q.digits + [digit]))
            && (after.enteringDialout <==> q.isHost && OnlyDialOut(c, q.digits + [digit]))
            && (after.enteringPin || after.enteringDialout ==> Entered(q, after, out, digit, now))
  {
    hide MatchCommand, AsksForPin, OnlyDialOut;
    ModesMatchExactlyWhen(c, q.digits + [digit]);
  }

  /** Out of the modes, with nothing typed. */
  predicate Idle(q: Sequence) {
    !q.enteringPin && !q.enteringDialout && q.digits == ""
  }

  /**
   Outside the modes a digit is answered with what the digits match, and the digits are forgotten; it
   waits where they may still become a command, and is answered as invalid where they may not.
   */
  lemma CommandDigitExactly(c: Config, q: Sequence, digit: char, now: nat)
    requires !q.enteringPin && !q.enteringDialout && Taken(c, q, digit, now)
    ensures var ((after, out), matched) := (Press(c, q, digit, now), MatchCommand(c, q.digits + [digit], RoleOf(q)));
            && after.isHost == q.isHost
            && (matched == Some(Incomplete) ==> out == None && after == Added(q, digit, now))
            && (matched == None ==> out == Some((InvalidCommand, if q.isHost then Host else Participant)) && Idle(after))
            && (matched.Some? && Plain(matched.value) ==>
                 out == Some((matched.value, if q.isHost then Host else Participant)) && Idle(after))
            && (matched == Some(EnterHostPin) || matched == Some(EnterDialOut) ==> Entered(q, after, out, digit, now))
  {
    hide MatchCommand;
  }

  /**
   In PIN mode a digit that completes the PIN makes a host, one that goes on with it waits, and any
   other is answered as invalid and ends the mode.
   */
  lemma PinDigitExactly(c: Config, q: Sequence, digit: char, now: nat, pin: string)
    requires q.enteringPin && !q.enteringDialout && Taken(c, q, digit, now) && c.hostPin == Some(pin)
    ensures var ((after, out), typed) := (Press(c, q, digit, now), q.digits + [digit]);
            if typed == pin then out == Some((EnterHostPin, Host)) && after.isHost && Idle(after)
            else if typed <= pin then out == None && after == Added(q, digit, now)
            else out == Some((InvalidCommand, Participant)) && after.isHost == q.isHost && Idle(after)
  {
  }

  /** In dial-out mode everything is kept up to the `#`, which dials what was kept, if anything. */
  lemma DialDigitExactly(c: Config, q: Sequence, digit: char, now: nat)
    requires q.enteringDialout && !q.enteringPin && Taken(c, q, digit, now) && '#' !in q.digits
    ensures var (after, out) := Press(c, q, digit, now);
            if digit != '#' then out == None && after == Added(q, digit, now)
            else
              && out == Some((if q.digits == "" then InvalidCommand else DialOut(q.digits), Host))
              && after.isHost == q.isHost && Idle(after)
  {
    OneTrailingHash(q.digits);
  }

  // ---- what has been typed --------------------------------------------

  /** All of `typed` was taken, the last digit at `now`. */
  predicate LastTaken(q: Sequence, typed: string, now: nat) {
    && q.startedAt == q.lastDigitTime == now
    && (typed != "" ==> q.lastDigit == Some(typed[|typed| - 1]))
  }

  /** When to press after a digit at `now`, and at the beginning. */
  function Then(c: Config, now: nat, first: bool): nat {
    if first then now else now + Pace(c)
  }

  /** The next digit of `typed`, at the pace of the configuration, is taken. */
  lemma NextIsTaken(c: Config, q: Sequence, typed: string, digit: char, now: nat)
    requires LastTaken(q, typed, now) && InTime(c, typed + [digit]) && (typed == "" ==> q.lastDigit == None)
    ensures var at := Then(c, now, typed == "");
            Taken(c, q, digit, at) && Expired(c, q, at) == q
    ensures Taken(c, q, digit, now + Pace(c)) && Expired(c, q, now + Pace(c)) == q
  {
    hide Repeats;
    if typed != "" {
      RepeatsWith(typed, digit);
    }
  }

  /** Digits that were taken one after another are in time. */
  lemma TakenIsInTime(c: Config, q: Sequence, typed: string, digit: char, now: nat, before: nat)
    requires LastTaken(q, typed, before) && InTime(c, typed) && Taken(c, q, digit, now)
    ensures InTime(c, typed + [digit]) && LastTaken(Added(q, digit, now), typed + [digit], now)
  {
    hide Repeats;
    if typed != "" {
      RepeatsWith(typed, digit);
    } else {
      NoRepeatOf(digit);
    }
  }

  lemma NoRepeatOf(digit: char)
    ensures !Repeats("" + [digit])
  {
  }

  // ---- becoming a host ------------------------------------------------

  /** Waited on at every prefix, by someone who is no host. */
  predicate WaitedAlone(c: Config, digits: string) {
    forall k :: 0 < k <= |digits| ==> MatchCommand(c, digits[..k], Participant) == Some(Incomplete)
  }

  /** Digits that someone who is no host can type, and that ask for the PIN. */
  predicate Asking(c: Config, digits: string) {
    digits != "" && WaitedAlone(c, digits[..|digits| - 1]) && AsksForPin(c, digits)
  }

  /** With these digits and then the PIN a host is made. */
  predicate Enters(c: Config, digits: string) {
    Asking(c, digits) && c.hostPin.value != "" && InTime(c, digits + c.hostPin.value)
  }

  ghost predicate CanEnter(c: Config) {
    exists digits :: Enters(c, digits)
  }

  /** In PIN mode: the digits that asked, and the part of the PIN typed since. */
  predicate PinBegun(c: Config, q: Sequence, digits: string) {
    && Asking(c, digits) && !q.isHost && q.digits <= c.hostPin.value && q.digits != c.hostPin.value
    && InTime(c, digits + q.digits) && LastTaken(q, digits + q.digits, q.startedAt)
  }

  /** Where someone never promoted can be: on the way to the PIN, typing it, or a host by it. */
  ghost predicate Stage(c: Config, q: Sequence) {
    && (q.isHost ==> CanEnter(c))
    && !(q.enteringPin && q.enteringDialout) && (q.enteringDialout ==> q.isHost)
    && (!q.enteringPin && !q.isHost && q.digits != "" ==>
         WaitedAlone(c, q.digits) && InTime(c, q.digits) && LastTaken(q, q.digits, q.startedAt))
    && (q.enteringPin ==> c.hostPin.Some? && (c.hostPin.value != "" ==> exists digits :: PinBegun(c, q, digits)))
  }

  lemma AloneGrows(c: Config, digits: string, digit: char)
    requires WaitedAlone(c, digits) && MatchCommand(c, digits + [digit], Participant) == Some(Incomplete)
    ensures WaitedAlone(c, digits + [digit])
  {
    hide MatchCommand;
    var all := digits + [digit];
    forall k | 0 < k <= |all| ensures MatchCommand(c, all[..k], Participant) == Some(Incomplete) {
      if k <= |digits| {
        assert all[..k] == digits[..k];
      } else {
        assert all[..k] == all;
      }
    }
  }

  lemma CommandStage(c: Config, q: Sequence, digit: char, now: nat)
    requires Stage(c, q) && !q.enteringPin && !q.enteringDialout && Taken(c, q, digit, now)
    ensures Stage(c, Press(c, q, digit, now).0)
    ensures Press(c, q, digit, now).1.Some? ==> !Press(c, q, digit, now).1.value.0.EnterHostPin?
  {
    hide MatchCommand, InTime, WaitedAlone, ParticipantCommand, IsHostCommand, OnlyDialOut, CanEnter;
    ModesMatchExactlyWhen(c, q.digits + [digit]);
    if !q.isHost {
      var all, after := q.digits + [digit], Press(c, q, digit, now).0;
      assert all[..|all| - 1] == q.digits;
      if q.digits == "" {
        NothingWaited(c, digit);
        assert "" + [digit] == all;
        assert LastTaken(Added(q, digit, now), all, now);
      } else {
        TakenIsInTime(c, q, q.digits, digit, now, q.startedAt);
      }
      if MatchCommand(c, all, Participant) == Some(Incomplete) {
        AloneGrows(c, q.digits, digit);
      } else if after.enteringPin && c.hostPin.value != "" {
        assert all + "" == all;
        assert PinBegun(c, after, all);
      }
    }
  }

  lemma NothingWaited(c: Config, digit: char)
    ensures WaitedAlone(c, "") && InTime(c, "" + [digit])
  {
    NoRepeatOf(digit);
  }

  lemma PinStage(c: Config, q: Sequence, digit: char, now: nat)
    requires Stage(c, q) && q.enteringPin && Taken(c, q, digit, now)
    ensures Stage(c, Press(c, q, digit, now).0)
    ensures var out := Press(c, q, digit, now).1;
            out.Some? && out.value.0.EnterHostPin? ==> CanEnter(c)
  {
    hide MatchCommand, InTime, WaitedAlone, AsksForPin, Asking;
    var pin, all := c.hostPin.value, q.digits + [digit];
    PinDigitExactly(c, q, digit, now, pin);
    if all <= pin && pin != "" {
      var digits :| PinBegun(c, q, digits);
      assert digits + q.digits + [digit] == digits + all;
      TakenIsInTime(c, q, digits + q.digits, digit, now, q.startedAt);
      if all == pin {
        assert Enters(c, digits);
      } else {
        assert PinBegun(c, Press(c, q, digit, now).0, digits);
      }
    }
  }

  lemma DialStage(c: Config, q: Sequence, digit: char, now: nat)
    requires Stage(c, q) && q.enteringDialout && Taken(c, q, digit, now)
    ensures Stage(c, Press(c, q, digit, now).0)
    ensures Press(c, q, digit, now).1.Some? ==> !Press(c, q, digit, now).1.value.0.EnterHostPin?
  {
    hide WithoutTrailingHash, CanEnter;
  }

  lemma PressStage(c: Config, before: Sequence, digit: char, now: nat)
    requires Stage(c, before)
    ensures Stage(c, Press(c, before, digit, now).0)
    ensures var out := Press(c, before, digit, now).1;
            out.Some? && out.value.0.EnterHostPin? ==> CanEnter(c)
  {
    hide MatchCommand, InTime, WaitedAlone, CanEnter, WithoutTrailingHash, PinBegun, OnCommandDigit, OnPinDigit, OnDialDigit;
    var q := Expired(c, before, now);
    if !Duplicate(q, digit, now) {
      assert Press(c, before, digit, now) == Press(c, q, digit, now);
      if q.enteringPin {
        PinStage(c, q, digit, now);
      } else if q.enteringDialout {
        DialStage(c, q, digit, now);
      } else {
        CommandStage(c, q, digit, now);
      }
    }
  }

  ghost predicate SoloStage(c: Config, s: Solo) {
    s.sequence.Some? ==> Stage(c, s.sequence.value)
  }

  lemma CurrentStage(c: Config, s: Solo, now: nat)
    requires SoloStage(c, s)
    ensures Stage(c, Current(s, now))
  {
    hide PinBegun, WaitedAlone, InTime, CanEnter;
  }

  lemma {:induction false} SoloRunStage(c: Config, s: Solo, acts: seq<Act>)
    requires SoloStage(c, s) && NeverPromoted(acts)
    ensures SoloStage(c, SoloRun(c, s, acts))
    decreases |acts|
  {
    hide Stage, Press, Logged;
    if acts != [] {
      if acts[0].Digit? {
        CurrentStage(c, s, acts[0].now);
        PressStage(c, Current(s, acts[0].now), acts[0].digit, acts[0].now);
      }
      SoloRunStage(c, SoloStep(c, s, acts[0]), acts[1..]);
    }
  }

  /** Some run makes someone a host who is never promoted. */
  ghost predicate CanBecomeHost(c: Config) {
    exists ops, p, digit, now ::
      NeverPromoted(Projected(ops, p)) && Answer(c, ops, p, digit, now) == Some((EnterHostPin, Host))
  }

  lemma HostHasEntered(c: Config, ops: seq<Op>, p: string, digit: char, now: nat)
    requires NeverPromoted(Projected(ops, p)) && Answer(c, ops, p, digit, now) == Some((EnterHostPin, Host))
    ensures c.enabled && CanEnter(c)
  {
    hide RoomRun, SoloRun, Projected, Press, Logged, NeverPromoted, Stage, CanEnter, Kept, SoloStage, Answer;
    var s := SoloRun(c, NOBODY, Projected(ops, p));
    AnswerIsPressed(c, ops, p, digit, now);
    NobodyAgrees(c, p);
    RunsProject(c, EMPTY_ROOM, ops, p, NOBODY);
    NobodyStage(c);
    SoloRunStage(c, NOBODY, Projected(ops, p));
    CurrentStage(c, s, now);
    PressStage(c, Current(s, now), digit, now);
  }

  lemma NobodyStage(c: Config)
    ensures SoloStage(c, NOBODY)
  {
  }

  // ---- a run that makes a host ----------------------------------------

  /** After `n` digits of the command and the PIN. */
  predicate OnTheWay(c: Config, q: Sequence, digits: string, n: nat, now: nat)
    requires c.hostPin.Some? && n <= |digits + c.hostPin.value|
  {
    var all := digits + c.hostPin.value;
    && !q.isHost && !q.enteringDialout && LastTaken(q, all[..n], now) && (n == 0 ==> q.lastDigit == None)
    && if n < |digits| then !q.enteringPin && q.digits == all[..n] else q.enteringPin && q.digits == all[|digits|..n]
  }

  lemma OneOnTheWay(c: Config, q: Sequence, digits: string, n: nat, now: nat)
    requires Enters(c, digits) && n < |digits + c.hostPin.value| && OnTheWay(c, q, digits, n, now)
    ensures var at := Then(c, now, n == 0);
            var (after, out) := Press(c, q, (digits + c.hostPin.value)[n], at);
            if n + 1 < |digits + c.hostPin.value| then OnTheWay(c, after, digits, n + 1, at)
            else out == Some((EnterHostPin, Host))
  {
    hide MatchCommand, Repeats, ParticipantCommand, IsHostCommand, OnlyDialOut;
    var pin := c.hostPin.value;
    var all := digits + pin;
    var digit := all[n];
    assert all[..n] + [digit] == all[..n + 1];
    PartInTime(c, all, n + 1);
    NextIsTaken(c, q, all[..n], digit, now);
    var at := Then(c, now, n == 0);
    if n + 1 < |digits| {
      assert digits[..|digits| - 1][..n + 1] == all[..n + 1] == q.digits + [digit];
    } else if n < |digits| {
      assert q.digits + [digit] == digits;
      assert all[|digits|..n + 1] == "";
      ModesAreEnteredExactlyWhen(c, q, digit, at);
    } else {
      assert q.digits + [digit] == all[|digits|..n + 1] == pin[..n + 1 - |digits|];
      PinDigitExactly(c, q, digit, at, pin);
    }
  }

  lemma PartInTime(c: Config, typed: string, n: nat)
    requires n <= |typed| && InTime(c, typed)
    ensures InTime(c, typed[..n])
  {
    if Repeats(typed[..n]) {
      var k :| 0 < k < n && typed[..n][k] == typed[..n][k - 1];
      assert typed[k] == typed[k - 1];
    }
  }

  /** Digits from one participant and nothing else. */
  predicate OnlyDigits(ops: seq<Op>) {
    forall i :: 0 <= i < |ops| ==> ops[i].act.Digit?
  }

  lemma {:induction false} DigitsPromoteNobody(ops: seq<Op>, p: string)
    requires OnlyDigits(ops)
    ensures NeverPromoted(Projected(ops, p))
    decreases |ops|
  {
    if ops != [] {
      DigitsPromoteNobody(ops[1..], p);
    }
  }

  /** One more digit pressed at the end of a run. */
  lemma PressedNext(c: Config, ops: seq<Op>, digit: char, now: nat)
    requires c.enabled
    ensures var q := SequenceOf(RoomRun(c, EMPTY_ROOM, ops).sequences, "", now);
            var after := RoomRun(c, EMPTY_ROOM, ops + [Op("", Digit(digit, now))]);
            && "" in after.sequences && after.sequences[""] == Press(c, q, digit, now).0
            && Answer(c, ops, "", digit, now) == Press(c, q, digit, now).1
  {
    hide RoomRun, Press;
    var r := RoomRun(c, EMPTY_ROOM, ops);
    RunOn(c, EMPTY_ROOM, ops, [Op("", Digit(digit, now))]);
    RunOne(c, r, Op("", Digit(digit, now)));
  }

  lemma NothingRun(c: Config, digits: string)
    requires Enters(c, digits)
    ensures OnTheWay(c, SequenceOf(RoomRun(c, EMPTY_ROOM, []).sequences, "", 0), digits, 0, 0)
  {
    hide MatchCommand, InTime, WaitedAlone, AsksForPin;
  }

  lemma {:induction false} GoesOn(c: Config, digits: string, n: nat) returns (ops: seq<Op>, now: nat)
    requires c.enabled && Enters(c, digits) && n < |digits + c.hostPin.value|
    ensures OnlyDigits(ops) && OnTheWay(c, SequenceOf(RoomRun(c, EMPTY_ROOM, ops).sequences, "", now), digits, n, now)
    ensures n > 0 ==> "" in RoomRun(c, EMPTY_ROOM, ops).sequences
    ensures n == 0 ==> ops == [] && now == 0
  {
    hide MatchCommand, InTime, WaitedAlone, ParticipantCommand, IsHostCommand, Press, RoomRun, OnTheWay;
    if n == 0 {
      ops, now := [], 0;
      NothingRun(c, digits);
    } else {
      var digit := (digits + c.hostPin.value)[n - 1];
      ops, now := GoesOn(c, digits, n - 1);
      var at := Then(c, now, n == 1);
      OneOnTheWay(c, SequenceOf(RoomRun(c, EMPTY_ROOM, ops).sequences, "", now), digits, n - 1, now);
      PressedNext(c, ops, digit, at);
      ops, now := ops + [Op("", Digit(digit, at))], at;
    }
  }

  lemma EnteringMakesHosts(c: Config, digits: string)
    requires c.enabled && Enters(c, digits)
    ensures CanBecomeHost(c)
  {
    hide MatchCommand, InTime, WaitedAlone, ParticipantCommand, IsHostCommand, Press, RoomRun, OnTheWay, Answer,
         NeverPromoted, Projected;
    var n := |digits + c.hostPin.value| - 1;
    var ops, now := GoesOn(c, digits, n);
    var at := Then(c, now, n == 0);
    OneOnTheWay(c, SequenceOf(RoomRun(c, EMPTY_ROOM, ops).sequences, "", now), digits, n, now);
    PressedNext(c, ops, (digits + c.hostPin.value)[n], at);
    DigitsPromoteNobody(ops, "");
  }

  /**
   The exact condition: some run makes a host of someone never promoted if and only if there is a PIN,
   not empty, some digits that someone who is no host can type complete a host command and nothing
   else, and the timeout leaves room for a repeated digit where these and the PIN have one.
   */
  lemma BecomesHostExactlyWhen(c: Config)
    ensures CanBecomeHost(c) <==> c.enabled && CanEnter(c)
  {
    hide Enters, Answer, NeverPromoted, Projected;
    if CanBecomeHost(c) {
      var ops, p, digit, now :|
        NeverPromoted(Projected(ops, p)) && Answer(c, ops, p, digit, now) == Some((EnterHostPin, Host));
      HostHasEntered(c, ops, p, digit, now);
    }
    if c.enabled && CanEnter(c) {
      var digits :| Enters(c, digits);
      EnteringMakesHosts(c, digits);
    }
  }
}
