/**
 Whole runs of the DTMF handler. Each participant is answered as if alone, and against a log
 of the digits accepted and the mode each was taken in: a host command follows the whole PIN,
 a dial-out carries exactly what was dialled, and digits are kept only while they can lead on.
 */
module DtmfRuns {
  import opened Wrappers
  import opened DtmfCommands

  datatype Mode = Commanding | Pinning | Dialling

  datatype Entry = Entry(digit: char, mode: Mode)

  function ModeOf(q: Sequence): Mode {
    if q.enteringPin then Pinning else if q.enteringDialout then Dialling else Commanding
  }

  /** The log after a digit: unchanged by a duplicate. */
  function Logged(c: Config, log: seq<Entry>, before: Sequence, digit: char, now: nat): seq<Entry> {
    var q := Expired(c, before, now);
    if Duplicate(q, digit, now) then log else log + [Entry(digit, ModeOf(q))]
  }

  /** `s` was typed in one mode at `at`, from that mode's first digit on. */
  predicate Typed(log: seq<Entry>, at: nat, s: string, mode: Mode) {
    && 0 < at && at + |s| <= |log| && log[at - 1].mode == Commanding
    && forall k :: 0 <= k < |s| ==> log[at + k] == Entry(s[k], mode)
  }

  /** The whole host PIN has been typed in PIN mode, its digits contiguous among those accepted. */
  predicate PinTyped(c: Config, log: seq<Entry>) {
    c.hostPin.Some? && c.hostPin.value != "" && exists at :: 0 <= at <= |log| && Typed(log, at, c.hostPin.value, Pinning)
  }

  /** The digits kept are exactly what has been typed since the mode began. */
  predicate KeptSince(q: Sequence, log: seq<Entry>, mode: Mode) {
    |q.digits| < |log| && Typed(log, |log| - |q.digits|, q.digits, mode)
  }

  /** The digits could still lead to one of the configured commands. */
  predicate LeadsOn(c: Config, digits: string) {
    IsPartialMatch(c, digits)
  }

  predicate Sound(c: Config, q: Sequence, log: seq<Entry>) {
    && !(q.enteringPin && q.enteringDialout)
    && (q.enteringPin ==> KeptSince(q, log, Pinning))
    && (q.enteringDialout ==> KeptSince(q, log, Dialling) && '#' !in q.digits && q.isHost)
    && (q.isHost ==> PinTyped(c, log))
    && (!q.enteringPin && !q.enteringDialout ==> LeadsOn(c, q.digits))
  }

  lemma ClearedIsSound(c: Config, q: Sequence, now: nat, log: seq<Entry>)
    requires q.isHost ==> PinTyped(c, log)
    ensures Sound(c, Cleared(q, now), log)
  {
  }

  lemma PinStaysTyped(c: Config, log: seq<Entry>, e: Entry)
    requires PinTyped(c, log)
    ensures PinTyped(c, log + [e])
  {
    var at :| 0 <= at <= |log| && Typed(log, at, c.hostPin.value, Pinning);
    assert Typed(log + [e], at, c.hostPin.value, Pinning);
  }

  /** A digit taken in a mode extends what is kept in it. */
  lemma KeptGrows(q: Sequence, log: seq<Entry>, mode: Mode, digit: char, now: nat)
    requires KeptSince(q, log, mode)
    ensures KeptSince(Added(q, digit, now), log + [Entry(digit, mode)], mode)
  {
  }

  lemma ModeBegins(q: Sequence, log: seq<Entry>, mode: Mode)
    requires q.digits == "" && log != [] && log[|log| - 1].mode == Commanding
    ensures KeptSince(q, log, mode)
  {
  }

  lemma PinDigitIsSound(c: Config, q: Sequence, now: nat, log: seq<Entry>)
    requires q.enteringPin && !q.enteringDialout && KeptSince(q, log, Pinning) && q.digits != ""
    requires q.isHost ==> PinTyped(c, log)
    ensures var (after, out) := OnPinDigit(c, q, now);
            && Sound(c, after, log)
            && (out.Some? && out.value.1.Host? ==> PinTyped(c, log))
            && (out.Some? ==> !out.value.0.DialOut?)
  {
    hide KeptSince, Typed, LeadsOn, PinTyped;
    if c.hostPin.Some? && q.digits == c.hostPin.value {
      PinIsTyped(c, q, log);
    }
    var (after, out) := OnPinDigit(c, q, now);
    if out.Some? {
      ClearedIsSound(c, if out.value.1.Host? then q.(isHost := true) else q, now, log);
    }
  }

  lemma PinIsTyped(c: Config, q: Sequence, log: seq<Entry>)
    requires KeptSince(q, log, Pinning) && q.digits != "" && c.hostPin == Some(q.digits)
    ensures PinTyped(c, log)
  {
  }

  lemma {:induction false} OneTrailingHash(s: string)
    requires '#' !in s
    ensures WithoutTrailingHash(s + "#") == s
  {
    assert (s + "#")[..|s|] == s;
  }

  /** What a dial-out is for: the digits since dial-out began, without the `#` that ends them. */
  predicate Dialled(log: seq<Entry>, destination: string) {
    && destination != "" && '#' !in destination && |destination| + 1 < |log|
    && Typed(log, |log| - |destination| - 1, destination + "#", Dialling)
  }

  lemma DialDigitIsSound(c: Config, before: Sequence, digit: char, now: nat, log: seq<Entry>)
    requires Sound(c, before, log) && before.enteringDialout
    ensures var (after, out) := OnDialDigit(Added(before, digit, now), digit, now);
            var longer := log + [Entry(digit, Dialling)];
            && Sound(c, after, longer)
            && (out.Some? ==> out.value.1.Host? && PinTyped(c, longer))
            && (out.Some? && out.value.0.DialOut? ==> Dialled(longer, out.value.0.destination))
  {
    hide LeadsOn, PinTyped, Typed;
    var q, longer := Added(before, digit, now), log + [Entry(digit, Dialling)];
    KeptGrows(before, log, Dialling, digit, now);
    PinStaysTyped(c, log, Entry(digit, Dialling));
    if digit == '#' {
      OneTrailingHash(before.digits);
      ClearedIsSound(c, q, now, longer);
    }
  }

  lemma CommandDigitIsSound(c: Config, q: Sequence, now: nat, log: seq<Entry>)
    requires !q.enteringPin && !q.enteringDialout && (q.isHost ==> PinTyped(c, log))
    requires log != [] && log[|log| - 1].mode == Commanding
    ensures var (after, out) := OnCommandDigit(c, q, now);
            && Sound(c, after, log)
            && (out.Some? && out.value.1.Host? ==> PinTyped(c, log))
            && (out.Some? ==> !out.value.0.DialOut?)
  {
    hide KeptSince, Typed, PinTyped, LeadsOn, ParseNumber, IsHostCommandPrefix, LongestHostCommandLength;
    var (after, out) := OnCommandDigit(c, q, now);
    MatchMeans(c, q.digits, RoleOf(q));
    if out.Some? {
      ClearedIsSound(c, q, now, log);
    } else if after.enteringPin {
      ModeBegins(after, log, Pinning);
    } else if after.enteringDialout {
      ModeBegins(after, log, Dialling);
    }
  }

  /** Only digits that lead on are waited for, only hosts dial out, and matching never dials itself. */
  lemma MatchMeans(c: Config, digits: string, role: Role)
    ensures MatchCommand(c, digits, role) == Some(Incomplete) ==> LeadsOn(c, digits)
    ensures MatchCommand(c, digits, role) == Some(EnterDialOut) ==> role.Host? && digits == c.host.dialOut
    ensures MatchCommand(c, digits, role).Some? ==> !MatchCommand(c, digits, role).value.DialOut?
  {
    hide ParseNumber, LongestHostCommandLength;
  }

  /** Every digit, in every state: what is kept stays sound and what is answered has its grounds in the log. */
  lemma PressIsSound(c: Config, before: Sequence, digit: char, now: nat, log: seq<Entry>)
    requires Sound(c, before, log)
    ensures var (after, out) := Press(c, before, digit, now);
            var longer := Logged(c, log, before, digit, now);
            && Sound(c, after, longer)
            && (out.Some? && out.value.1.Host? ==> PinTyped(c, longer))
            && (out.Some? && out.value.0.DialOut? ==> out.value.1.Host? && Dialled(longer, out.value.0.destination))
  {
    hide KeptSince, PinTyped, LeadsOn, Dialled, OnPinDigit, OnDialDigit, OnCommandDigit;
    ClearedIsSound(c, before, now, log);
    var q := Expired(c, before, now);
    if !Duplicate(q, digit, now) {
      var e := Entry(digit, ModeOf(q));
      if q.isHost {
        PinStaysTyped(c, log, e);
      }
      if q.enteringPin {
        KeptGrows(q, log, Pinning, digit, now);
        PinDigitIsSound(c, Added(q, digit, now), now, log + [e]);
      } else if q.enteringDialout {
        DialDigitIsSound(c, q, digit, now, log);
      } else {
        CommandDigitIsSound(c, Added(q, digit, now), now, log + [e]);
      }
    }
  }

  // ---- runs of one participant ----------------------------------------

  datatype Act = Digit(digit: char, now: nat) | Promote(isHost: bool, now: nat) | Depart

  /** One participant: their sequence if they have one, their log, and what they were answered. */
  datatype Solo = Solo(sequence: Option<Sequence>, log: seq<Entry>, answers: seq<Output>)

  const NOBODY := Solo(None, [], [])

  function Current(s: Solo, now: nat): Sequence {
    if s.sequence.Some? then s.sequence.value else NewSequence(now)
  }

  function SoloStep(c: Config, s: Solo, act: Act): Solo {
    match act
    case Digit(digit, now) =>
      if !c.enabled then s.(answers := s.answers + [None])
      else
        var (q, out) := Press(c, Current(s, now), digit, now);
        Solo(Some(q), Logged(c, s.log, Current(s, now), digit, now), s.answers + [out])
    case Promote(isHost, now) => s.(sequence := Some(Current(s, now).(isHost := isHost)))
    case Depart => s.(sequence := None, log := [])
  }

  function SoloRun(c: Config, s: Solo, acts: seq<Act>): Solo
    decreases |acts|
  {
    if acts == [] then s else SoloRun(c, SoloStep(c, s, acts[0]), acts[1..])
  }

  predicate SoloSound(c: Config, s: Solo) {
    s.sequence.Some? ==> Sound(c, s.sequence.value, s.log)
  }

  predicate NeverPromoted(acts: seq<Act>) {
    forall i :: 0 <= i < |acts| ==> !acts[i].Promote?
  }

  lemma CurrentIsSound(c: Config, s: Solo, now: nat)
    requires SoloSound(c, s)
    ensures Sound(c, Current(s, now), s.log)
  {
  }

  lemma SoloStepKeeps(c: Config, s: Solo, act: Act)
    requires SoloSound(c, s) && !act.Promote?
    ensures SoloSound(c, SoloStep(c, s, act))
  {
    hide Sound, Press, Logged;
    if act.Digit? {
      CurrentIsSound(c, s, act.now);
      PressIsSound(c, Current(s, act.now), act.digit, act.now, s.log);
    }
  }

  lemma {:induction false} SoloRunKeeps(c: Config, s: Solo, acts: seq<Act>)
    requires SoloSound(c, s) && NeverPromoted(acts)
    ensures SoloSound(c, SoloRun(c, s, acts))
    decreases |acts|
  {
    hide SoloSound, SoloStep;
    if acts != [] {
      SoloStepKeeps(c, s, acts[0]);
      SoloRunKeeps(c, SoloStep(c, s, acts[0]), acts[1..]);
    }
  }

  // ---- runs of the handler --------------------------------------------

  /** What happens at the handler, and to whom. */
  datatype Op = Op(who: string, act: Act)

  datatype Room = Room(sequences: Sequences, answers: map<string, seq<Output>>)

  function AnswersOf(r: Room, p: string): seq<Output> {
    if p in r.answers then r.answers[p] else []
  }

  function RoomStep(c: Config, r: Room, op: Op): Room {
    var p := op.who;
    match op.act
    case Digit(digit, now) =>
      if !c.enabled then r.(answers := r.answers[p := AnswersOf(r, p) + [None]])
      else
        var (q, out) := Press(c, SequenceOf(r.sequences, p, now), digit, now);
        Room(r.sequences[p := q], r.answers[p := AnswersOf(r, p) + [out]])
    case Promote(isHost, now) =>
      r.(sequences := r.sequences[p := SequenceOf(r.sequences, p, now).(isHost := isHost)])
    case Depart => r.(sequences := r.sequences - {p})
  }

  function RoomRun(c: Config, r: Room, ops: seq<Op>): Room
    decreases |ops|
  {
    if ops == [] then r else RoomRun(c, RoomStep(c, r, ops[0]), ops[1..])
  }

  function Projected(ops: seq<Op>, p: string): seq<Act> {
    if ops == [] then [] else (if ops[0].who == p then [ops[0].act] else []) + Projected(ops[1..], p)
  }

  /** The room treats `p` as `s` says. */
  predicate Agrees(r: Room, p: string, s: Solo) {
    && (s.sequence.Some? <==> p in r.sequences)
    && (p in r.sequences ==> r.sequences[p] == s.sequence.value)
    && AnswersOf(r, p) == s.answers
  }

  lemma StepAgrees(c: Config, r: Room, op: Op, p: string, s: Solo)
    requires Agrees(r, p, s)
    ensures Agrees(RoomStep(c, r, op), p, if op.who == p then SoloStep(c, s, op.act) else s)
  {
    hide Press, Logged;
  }

  /** Participants do not interfere: each is kept and answered as in a run with only their own acts. */
  lemma {:induction false} RunsProject(c: Config, r: Room, ops: seq<Op>, p: string, s: Solo)
    requires Agrees(r, p, s)
    ensures Agrees(RoomRun(c, r, ops), p, SoloRun(c, s, Projected(ops, p)))
    decreases |ops|
  {
    hide Agrees, RoomStep, SoloStep;
    if ops != [] {
      var op, rest := ops[0], Projected(ops[1..], p);
      StepAgrees(c, r, op, p, s);
      if op.who == p {
        RunsProject(c, RoomStep(c, r, op), ops[1..], p, SoloStep(c, s, op.act));
        assert ([op.act] + rest)[0] == op.act && ([op.act] + rest)[1..] == rest;
      } else {
        RunsProject(c, RoomStep(c, r, op), ops[1..], p, s);
        assert [] + rest == rest;
      }
    }
  }

  const EMPTY_ROOM := Room(map[], map[])

  function LastAnswer(r: Room, p: string): Output {
    if AnswersOf(r, p) == [] then None else AnswersOf(r, p)[|AnswersOf(r, p)| - 1]
  }

  /**
   Over every run of the handler, for a participant never promoted by the application: an answer
   for the host role is given only after they have typed the whole PIN in PIN mode since they
   joined; a dial-out carries exactly the digits accepted since dial-out mode began.
   */
  lemma HostsHaveTypedThePin(c: Config, ops: seq<Op>, p: string, digit: char, now: nat)
    requires NeverPromoted(Projected(ops, p))
    ensures var after := RoomStep(c, RoomRun(c, EMPTY_ROOM, ops), Op(p, Digit(digit, now)));
            var log := SoloStep(c, SoloRun(c, NOBODY, Projected(ops, p)), Digit(digit, now)).log;
            var answer := LastAnswer(after, p);
            && (answer.Some? && answer.value.1.Host? ==> PinTyped(c, log))
            && (answer.Some? && answer.value.0.DialOut? ==>
                 answer.value.1.Host? && Dialled(log, answer.value.0.destination))
  {
    hide RoomRun, SoloRun, Projected, Press, Logged, PinTyped, Dialled, SoloSound, Sound, NeverPromoted;
    var r, s := RoomRun(c, EMPTY_ROOM, ops), SoloRun(c, NOBODY, Projected(ops, p));
    NobodyAgrees(c, p);
    RunsProject(c, EMPTY_ROOM, ops, p, NOBODY);
    SoloRunKeeps(c, NOBODY, Projected(ops, p));
    CurrentIsSound(c, s, now);
    PressIsSound(c, Current(s, now), digit, now, s.log);
    StepAgrees(c, r, Op(p, Digit(digit, now)), p, s);
  }

  lemma NobodyAgrees(c: Config, p: string)
    ensures Agrees(EMPTY_ROOM, p, NOBODY) && SoloSound(c, NOBODY)
  {
  }

  // ---- the PIN does make a host ---------------------------------------

  /** Several digits, one after another: where that leaves the participant, and the last answer. */
  function Typing(c: Config, q: Sequence, s: string, times: seq<nat>): (Sequence, Output)
    requires |s| == |times|
    decreases |s|
  {
    if s == "" then (q, None)
    else
      var (next, out) := Press(c, q, s[0], times[0]);
      if |s| == 1 then (next, out) else Typing(c, next, s[1..], times[1..])
  }

  /** Each press comes late enough not to be a duplicate and soon enough not to expire. */
  predicate Paced(c: Config, since: nat, times: seq<nat>)
    decreases |times|
  {
    times == [] || (since + DEDUP_MS <= times[0] <= since + c.timeoutMs && Paced(c, times[0], times[1..]))
  }

  /** In PIN mode, typing the rest of the PIN at a steady pace makes the participant a host. */
  lemma {:induction false} PinMakesHost(c: Config, q: Sequence, s: string, times: seq<nat>)
    requires q.enteringPin && c.hostPin == Some(q.digits + s) && s != "" && |s| == |times|
    requires q.startedAt == q.lastDigitTime && Paced(c, q.startedAt, times)
    ensures Typing(c, q, s, times).0.isHost && Typing(c, q, s, times).1 == Some((EnterHostPin, Host))
    decreases |s|
  {
    var next := Added(q, s[0], times[0]);
    assert Press(c, q, s[0], times[0]) == OnPinDigit(c, next, times[0]);
    if |s| == 1 {
      assert s == [s[0]];
    } else {
      assert next.digits + s[1..] == q.digits + s;
      assert next.digits <= q.digits + s && |next.digits| < |q.digits + s|;
      PinMakesHost(c, next, s[1..], times[1..]);
    }
  }
}
