/**
 Which destinations can be dialled: exactly those that are not empty and hold no `#`, where a host
 can type the digits of dial-out. And what the default bindings allow of both modes.
 */
module DtmfDialling {
  import opened Wrappers
  import opened DtmfCommands
  import opened DtmfRuns
  import opened DtmfBindings
  import opened DtmfModes

  /** The digits of dial-out can be typed, and mean nothing else. */
  predicate DialOpen(c: Config) {
    c.host.dialOut != "" && Waited(c, c.host.dialOut[..|c.host.dialOut| - 1]) && OnlyDialOut(c, c.host.dialOut)
  }

  predicate DialsOut(c: Config, destination: string) {
    && DialOpen(c) && destination != "" && '#' !in destination
    && InTime(c, c.host.dialOut + destination + "#")
  }

  // ---- only those -----------------------------------------------------

  /** In dial-out mode: its digits were typed, and those kept after them, none of them `#`. */
  predicate DialBegun(c: Config, q: Sequence) {
    && DialOpen(c) && '#' !in q.digits
    && InTime(c, c.host.dialOut + q.digits) && LastTaken(q, c.host.dialOut + q.digits, q.startedAt)
  }

  predicate Dialling(c: Config, q: Sequence) {
    Kept(c, q) && !(q.enteringPin && q.enteringDialout) && (q.enteringDialout ==> DialBegun(c, q))
  }

  lemma DialDigitDials(c: Config, q: Sequence, digit: char, now: nat)
    requires Dialling(c, q) && q.enteringDialout && Taken(c, q, digit, now)
    ensures var (after, out) := Press(c, q, digit, now);
            && Dialling(c, after)
            && (out.Some? && out.value.0.DialOut? ==> out.value.1.Host? && DialsOut(c, out.value.0.destination))
  {
    hide DialOpen, InTime, Waited, WithoutTrailingHash, OnDialDigit;
    DialDigitExactly(c, q, digit, now);
    TakenIsInTime(c, q, c.host.dialOut + q.digits, digit, now, q.startedAt);
    assert c.host.dialOut + q.digits + [digit] == c.host.dialOut + (q.digits + [digit]);
  }

  lemma CommandDigitDials(c: Config, q: Sequence, digit: char, now: nat)
    requires Dialling(c, q) && !q.enteringPin && !q.enteringDialout && Taken(c, q, digit, now)
    ensures var (after, out) := Press(c, q, digit, now);
            Dialling(c, after) && (out.Some? ==> !out.value.0.DialOut?)
  {
    hide MatchCommand, InTime, Waited, ParticipantCommand, IsKick, Kicked, AsksForPin, Repeats;
    CommandDigitKeeps(c, q, digit, now);
    ModesMatchExactlyWhen(c, q.digits + [digit]);
    MatchMeans(c, q.digits + [digit], RoleOf(q));
    ModesAreEnteredExactlyWhen(c, q, digit, now);
    var all := q.digits + [digit];
    assert all + "" == all && all[..|all| - 1] == q.digits;
  }

  lemma PinDigitDials(c: Config, q: Sequence, digit: char, now: nat)
    requires Dialling(c, q) && q.enteringPin && Taken(c, q, digit, now)
    ensures var (after, out) := Press(c, q, digit, now);
            Dialling(c, after) && (out.Some? ==> !out.value.0.DialOut?)
  {
    hide InTime, Waited, DialBegun;
  }

  lemma PressDials(c: Config, before: Sequence, digit: char, now: nat)
    requires Dialling(c, before)
    ensures var (after, out) := Press(c, before, digit, now);
            && Dialling(c, after)
            && (out.Some? && out.value.0.DialOut? ==> out.value.1.Host? && DialsOut(c, out.value.0.destination))
  {
    hide InTime, Waited, DialBegun, DialsOut, OnCommandDigit, OnPinDigit, OnDialDigit;
    var q := Expired(c, before, now);
    if !Duplicate(q, digit, now) {
      assert Press(c, before, digit, now) == Press(c, q, digit, now);
      if q.enteringPin {
        PinDigitDials(c, q, digit, now);
      } else if q.enteringDialout {
        DialDigitDials(c, q, digit, now);
      } else {
        CommandDigitDials(c, q, digit, now);
      }
    }
  }

  predicate RoomDials(c: Config, r: Room) {
    forall p :: p in r.sequences ==> Dialling(c, r.sequences[p])
  }

  lemma NewDials(c: Config, r: Room, p: string, now: nat)
    requires RoomDials(c, r)
    ensures Dialling(c, SequenceOf(r.sequences, p, now))
  {
    hide Waited, InTime, DialBegun;
  }

  lemma RoomStepDials(c: Config, r: Room, op: Op)
    requires RoomDials(c, r)
    ensures RoomDials(c, RoomStep(c, r, op))
  {
    hide Press, Waited, InTime, DialOpen;
    match op.act
    case Digit(digit, now) =>
      NewDials(c, r, op.who, now);
      PressDials(c, SequenceOf(r.sequences, op.who, now), digit, now);
    case Promote(isHost, now) => NewDials(c, r, op.who, now);
    case Depart =>
  }

  lemma {:induction false} RoomRunDials(c: Config, r: Room, ops: seq<Op>)
    requires RoomDials(c, r)
    ensures RoomDials(c, RoomRun(c, r, ops))
    decreases |ops|
  {
    hide RoomDials, RoomStep;
    if ops != [] {
      RoomStepDials(c, r, ops[0]);
      RoomRunDials(c, RoomStep(c, r, ops[0]), ops[1..]);
    }
  }

  lemma DialledOnly(c: Config, ops: seq<Op>, p: string, digit: char, now: nat, destination: string, role: Role)
    requires Answer(c, ops, p, digit, now) == Some((DialOut(destination), role))
    ensures c.enabled && role.Host? && DialsOut(c, destination)
  {
    hide Press, Answer, Dialling, DialsOut, RoomRun, Kept;
    AnswerIsPressed(c, ops, p, digit, now);
    RoomRunDials(c, EMPTY_ROOM, ops);
    NewDials(c, RoomRun(c, EMPTY_ROOM, ops), p, now);
    PressDials(c, SequenceOf(RoomRun(c, EMPTY_ROOM, ops).sequences, p, now), digit, now);
  }

  // ---- and all of those -----------------------------------------------

  /** After the digits of dial-out and `n` of the destination. */
  predicate DialKept(c: Config, q: Sequence, destination: string, n: nat, now: nat)
    requires n <= |destination|
  {
    && q.enteringDialout && !q.enteringPin && q.digits == destination[..n]
    && LastTaken(q, c.host.dialOut + destination[..n], now)
  }

  lemma {:induction false} DialsOn(c: Config, destination: string, n: nat) returns (ops: seq<Op>, now: nat)
    requires c.enabled && DialsOut(c, destination) && n <= |destination|
    ensures var r := RoomRun(c, EMPTY_ROOM, ops);
            "" in r.sequences && DialKept(c, r.sequences[""], destination, n, now)
  {
    hide MatchCommand, InTime, Waited, OnlyDialOut, Press, RoomRun, DialKept, Repeats;
    if n == 0 {
      ops, now := DialEntered(c, destination);
    } else {
      ops, now := DialsOn(c, destination, n - 1);
      var q := RoomRun(c, EMPTY_ROOM, ops).sequences[""];
      OneDialled(c, q, destination, n - 1, now);
      PressedNext(c, ops, destination[n - 1], now + Pace(c));
      ops, now := ops + [Op("", Digit(destination[n - 1], now + Pace(c)))], now + Pace(c);
    }
  }

  lemma OneDialled(c: Config, q: Sequence, destination: string, n: nat, now: nat)
    requires DialsOut(c, destination) && n < |destination| && DialKept(c, q, destination, n, now)
    ensures DialKept(c, Press(c, q, destination[n], now + Pace(c)).0, destination, n + 1, now + Pace(c))
  {
    hide MatchCommand, InTime, Waited, OnlyDialOut, Repeats;
    var all, digit := c.host.dialOut + destination + "#", destination[n];
    var typed := c.host.dialOut + destination[..n];
    assert destination[..n] + [digit] == destination[..n + 1];
    assert all[..|typed| + 1] == typed + [digit] == c.host.dialOut + destination[..n + 1];
    PartInTime(c, all, |typed| + 1);
    NextIsTaken(c, q, typed, digit, now);
    DialDigitExactly(c, q, digit, now + Pace(c));
  }

  lemma DialEntered(c: Config, destination: string) returns (ops: seq<Op>, now: nat)
    requires c.enabled && DialsOut(c, destination)
    ensures var r := RoomRun(c, EMPTY_ROOM, ops);
            "" in r.sequences && DialKept(c, r.sequences[""], destination, 0, now)
  {
    hide MatchCommand, InTime, Waited, OnlyDialOut, Press, RoomRun, RoomStep, Repeats;
    var d := c.host.dialOut;
    var kept, digit := d[..|d| - 1], d[|d| - 1];
    var all := d + destination + "#";
    assert kept + [digit] == d && all[..|d|] == d && all[..|kept|] == kept;
    PartInTime(c, all, |kept|);
    PartInTime(c, all, |d|);
    var earlier, at := TypesOut(c, kept);
    var r := RoomRun(c, EMPTY_ROOM, earlier);
    var q := SequenceOf(r.sequences, "", at).(isHost := true);
    var more := [Promotion(Host, at), Op("", Digit(digit, at + Pace(c)))];
    PromotedPress(c, r, kept, digit, at, Host);
    NextIsTaken(c, q, kept, digit, at);
    ModesAreEnteredExactlyWhen(c, q, digit, at + Pace(c));
    RunOn(c, EMPTY_ROOM, earlier, more);
    RunTwo(c, r, more[0], more[1]);
    ops, now := earlier + more, at + Pace(c);
    assert d + destination[..0] == d;
  }

  /**
   Exactly what can be dialled: some run answers a dial-out to a destination if and only if it is not
   empty and holds no `#`, the digits of dial-out can be typed and mean nothing else, and the timeout
   leaves room for a repeated digit where there is one in all that is typed.
   */
  lemma DialledExactlyWhen(c: Config, destination: string, role: Role)
    ensures CanBeAnswered(c, DialOut(destination), role) <==> c.enabled && role.Host? && DialsOut(c, destination)
  {
    hide Answer, DialsOut;
    if CanBeAnswered(c, DialOut(destination), role) {
      var ops, p, digit, now :| Answer(c, ops, p, digit, now) == Some((DialOut(destination), role));
      DialledOnly(c, ops, p, digit, now, destination, role);
    }
    if c.enabled && role.Host? && DialsOut(c, destination) {
      CanBeDialled(c, destination);
    }
  }

  lemma CanBeDialled(c: Config, destination: string)
    requires c.enabled && DialsOut(c, destination)
    ensures CanBeAnswered(c, DialOut(destination), Host)
  {
    hide Answer, Press, RoomRun, InTime, DialOpen, Repeats;
    var ops, now := DialsOn(c, destination, |destination|);
    var q := RoomRun(c, EMPTY_ROOM, ops).sequences[""];
    assert destination[..|destination|] == destination;
    NextIsTaken(c, q, c.host.dialOut + destination, '#', now);
    DialDigitExactly(c, q, '#', now + Pace(c));
    PressedNext(c, ops, '#', now + Pace(c));
  }

  // ---- the default bindings -------------------------------------------

  /** With the default bindings anyone who types the PIN after a host command becomes a host. */
  lemma DefaultsMakeHosts(c: Config)
    requires DefaultBindings(c)
    ensures CanBecomeHost(c) <==> c.enabled && c.hostPin.Some? && c.hostPin.value != "" && InTime(c, c.hostPin.value)
  {
    hide CanBecomeHost, InTime, WaitedAlone, IsHostCommand, ParticipantCommand;
    BecomesHostExactlyWhen(c);
    if digits :| Enters(c, digits) {
      LaterInTime(c, digits, c.hostPin.value);
    }
    if c.hostPin.Some? && c.hostPin.value != "" && InTime(c, c.hostPin.value) {
      var digits := if c.hostPin.value[0] == '1' then "*92" else "*91";
      DefaultsAsk(c, digits);
      AskedInTime(c, digits, c.hostPin.value);
      assert Enters(c, digits);
    }
  }

  lemma RepeatsWithin(a: string, b: string)
    ensures Repeats(b) ==> Repeats(a + b)
  {
    if k :| 0 < k < |b| && b[k] == b[k - 1] {
      assert (a + b)[|a| + k] == (a + b)[|a| + k - 1];
    }
  }

  lemma LaterInTime(c: Config, a: string, b: string)
    requires InTime(c, a + b)
    ensures InTime(c, b)
  {
    RepeatsWithin(a, b);
  }

  lemma DefaultsAsk(c: Config, digits: string)
    requires DefaultBindings(c) && c.hostPin.Some? && (digits == "*91" || digits == "*92")
    ensures Asking(c, digits)
  {
    DefaultsAreAmbiguous(c);
    assert digits[..2] == "*9" && "*9"[..1] == "*" && "*9"[..2] == "*9";
    assert "*" <= "*6" && !IsHostCommand(c, "*") && |digits| == 3;
    assert ParticipantCommand(c, "*").None?;
  }

  lemma AskedInTime(c: Config, digits: string, pin: string)
    requires InTime(c, pin) && pin != "" && (digits == "*91" || digits == "*92") && digits[2] != pin[0]
    ensures InTime(c, digits + pin)
  {
    var all := digits + pin;
    if k :| 0 < k < |all| && all[k] == all[k - 1] {
      if k > 3 {
        assert pin[k - 3] == pin[k - 3 - 1];
      }
    }
  }

  /** With the default bindings every destination can be dialled that is not empty and holds no `#`. */
  lemma DefaultsDial(c: Config, destination: string, role: Role)
    requires DefaultBindings(c)
    ensures CanBeAnswered(c, DialOut(destination), role) <==>
            c.enabled && role.Host? && destination != "" && '#' !in destination && InTime(c, "*5" + destination + "#")
  {
    hide CanBeAnswered, InTime;
    DialledExactlyWhen(c, destination, role);
    DefaultsOpen(c);
  }

  lemma DefaultsOpen(c: Config)
    requires DefaultBindings(c)
    ensures DialOpen(c)
  {
    hide MayWait;
    DefaultsMayWait(c);
    assert "*5"[..1] == "*" && "*"[..1] == "*" && "*5"[1] == '5';
  }
}
