/**
 What the configured bindings can and cannot do. Digits are matched at every press, so a command
 is answered only if none of its proper prefixes is answered first: which commands some run
 answers, and how far a kick's number can reach, are stated exactly, for every configuration.
 */
module DtmfBindings {
  import opened Wrappers
  import opened DtmfCommands
  import opened DtmfRuns

  predicate ForAll(cmd: Command) {
    cmd.MuteToggle? || cmd.VolumeUp? || cmd.VolumeDown? || cmd.Info? || cmd.Leave?
  }

  /** Commands answered by matching digits, outside the PIN and dial-out modes. */
  predicate Plain(cmd: Command) {
    ForAll(cmd) || (ForHosts(cmd) && !cmd.DialOut? && !cmd.EnterDialOut?)
  }

  /** Commands that only a host may have carried out. */
  predicate ForHosts(cmd: Command) {
    || cmd.KickParticipant? || cmd.MuteAll? || cmd.UnmuteAll? || cmd.LockConference? || cmd.UnlockConference?
    || cmd.EndConference? || cmd.DialOut? || cmd.EnterDialOut?
  }

  /** The digits may yet become a host command, as far as the program looks. */
  predicate Ambiguous(c: Config, digits: string) {
    IsHostCommandPrefix(c, digits) && |digits| < LongestHostCommandLength(c)
  }

  predicate Bound(c: Config, cmd: Command, digits: string) {
    match cmd
    case MuteToggle => digits == c.participant.muteToggle
    case VolumeUp => digits == c.participant.volumeUp
    case VolumeDown => digits == c.participant.volumeDown
    case Info => digits == c.participant.info
    case Leave => digits == c.participant.leave
    case MuteAll => digits == c.host.muteAll
    case UnmuteAll => digits == c.host.unmuteAll
    case LockConference => digits == c.host.lock
    case UnlockConference => digits == c.host.unlock
    case EndConference => digits == c.host.endConference
    case EnterDialOut => digits == c.host.dialOut
    case KickParticipant(n) => IsKick(c, digits) && ParseNumber(digits[|c.host.kickPrefix|..]) == Some(n)
    case _ => false
  }

  /** A command is matched only by the digits bound to it, and a host's only for a host. */
  lemma MatchedIsBound(c: Config, digits: string, role: Role)
    ensures var cmd := MatchCommand(c, digits, role);
            && (cmd.Some? && (ForAll(cmd.value) || ForHosts(cmd.value)) ==> Bound(c, cmd.value, digits))
            && (cmd.Some? && ForHosts(cmd.value) ==> role.Host?)
            && (cmd == Some(EnterHostPin) ==> role.Participant? && c.hostPin.Some? && IsHostCommand(c, digits))
  {
    hide ParseNumber, LongestHostCommandLength, IsHostCommandPrefix;
  }

  /**
   Digits bound to one host command and to nothing else are matched with it for a host, and
   for anyone else they ask for the PIN where there is one.
   */
  lemma HostCommandsAreServed(c: Config, cmd: Command, digits: string)
    requires ForHosts(cmd) && Bound(c, cmd, digits) && forall other :: Bound(c, other, digits) ==> other == cmd
    ensures MatchCommand(c, digits, Host) == Some(cmd)
    ensures c.hostPin.Some? ==> MatchCommand(c, digits, Participant) == Some(EnterHostPin)
  {
    hide ParseNumber, LongestHostCommandLength, IsHostCommandPrefix;
    assert !Bound(c, MuteToggle, digits) && !Bound(c, VolumeUp, digits) && !Bound(c, VolumeDown, digits);
    assert !Bound(c, Info, digits) && !Bound(c, Leave, digits);
    assert ParticipantCommand(c, digits).None?;
    assert HostCommand(c, digits).Some? ==> Bound(c, HostCommand(c, digits).value, digits);
  }

  // ---- what is answered over a run ------------------------------------

  /** The digits may be waited on, in one role or the other. */
  predicate MayWait(c: Config, digits: string) {
    MatchCommand(c, digits, Host) == Some(Incomplete) || MatchCommand(c, digits, Participant) == Some(Incomplete)
  }

  /** Nothing is answered before or at these digits: every nonempty prefix may be waited on. */
  predicate Waited(c: Config, digits: string) {
    forall k :: 0 < k <= |digits| ==> MayWait(c, digits[..k])
  }

  predicate Repeats(digits: string) {
    exists k :: 0 < k < |digits| && digits[k] == digits[k - 1]
  }

  /** A digit pressed twice in a row is neither taken for a duplicate nor too late. */
  predicate InTime(c: Config, digits: string) {
    Repeats(digits) ==> c.timeoutMs >= DEDUP_MS
  }

  /** The digits can be typed to the last one. */
  predicate Typable(c: Config, digits: string) {
    digits != "" && Waited(c, digits[..|digits| - 1]) && InTime(c, digits)
  }

  /** Outside the modes, what is kept was waited on, and its last digit is the last one taken. */
  predicate Kept(c: Config, q: Sequence) {
    !q.enteringPin && !q.enteringDialout && q.digits != "" ==>
      && Waited(c, q.digits) && InTime(c, q.digits)
      && q.lastDigit == Some(q.digits[|q.digits| - 1]) && q.lastDigitTime == q.startedAt
  }

  lemma PrefixesOf(c: Config, digits: string, digit: char)
    ensures (digits + [digit])[..|digits|] == digits
    ensures Waited(c, digits) && MayWait(c, digits + [digit]) ==> Waited(c, digits + [digit])
    ensures digits == "" ==> Waited(c, digits) && InTime(c, digits + [digit])
  {
    hide MayWait;
    assert (digits + [digit])[..|digits|] == digits && (digits + [digit])[..|digits| + 1] == digits + [digit];
    forall k | 0 < k <= |digits| ensures (digits + [digit])[..k] == digits[..k] {
    }
  }

  lemma RepeatsWith(digits: string, digit: char)
    requires digits != ""
    ensures Repeats(digits + [digit]) <==> Repeats(digits) || digit == digits[|digits| - 1]
  {
    var all := digits + [digit];
    if Repeats(digits) {
      var k :| 0 < k < |digits| && digits[k] == digits[k - 1];
      assert all[k] == all[k - 1];
    }
    if digit == digits[|digits| - 1] {
      assert all[|digits|] == all[|digits| - 1];
    }
  }

  lemma CommandDigitKeeps(c: Config, q: Sequence, digit: char, now: nat)
    requires Kept(c, q) && !q.enteringPin && !q.enteringDialout
    requires Elapsed(now, q.startedAt) <= c.timeoutMs && !Duplicate(q, digit, now)
    ensures Typable(c, q.digits + [digit])
    ensures var (after, out) := OnCommandDigit(c, Added(q, digit, now), now);
            && Kept(c, after)
            && (out.Some? && Plain(out.value.0) ==>
                 MatchCommand(c, q.digits + [digit], RoleOf(q)) == Some(out.value.0) && out.value.1 == RoleOf(q))
  {
    hide MatchCommand, Waited, Repeats;
    PrefixesOf(c, q.digits, digit);
    if q.digits != "" {
      RepeatsWith(q.digits, digit);
    }
  }

  /** Whatever the state, a plain command is answered only on digits that can be typed and match it. */
  lemma PressKeeps(c: Config, before: Sequence, digit: char, now: nat)
    requires Kept(c, before)
    ensures var (after, out) := Press(c, before, digit, now);
            var digits := Expired(c, before, now).digits + [digit];
            && Kept(c, after)
            && (out.Some? && Plain(out.value.0) ==>
                 Typable(c, digits) && MatchCommand(c, digits, out.value.1) == Some(out.value.0))
  {
    hide MatchCommand, Waited, InTime, Typable, WithoutTrailingHash, OnCommandDigit;
    var q := Expired(c, before, now);
    if !q.enteringPin && !q.enteringDialout && !Duplicate(q, digit, now) {
      CommandDigitKeeps(c, q, digit, now);
    }
  }

  lemma PressForHosts(c: Config, before: Sequence, digit: char, now: nat)
    ensures var out := Press(c, before, digit, now).1;
            out.Some? && ForHosts(out.value.0) ==> out.value.1.Host?
  {
    hide MatchCommand, WithoutTrailingHash;
    var q := Expired(c, before, now);
    MatchedIsBound(c, q.digits + [digit], RoleOf(q));
  }

  predicate RoomKept(c: Config, r: Room) {
    forall p :: p in r.sequences ==> Kept(c, r.sequences[p])
  }

  lemma RoomStepKeeps(c: Config, r: Room, op: Op)
    requires RoomKept(c, r)
    ensures RoomKept(c, RoomStep(c, r, op))
  {
    hide Press, Waited, InTime;
    if op.act.Digit? {
      PressKeeps(c, SequenceOf(r.sequences, op.who, op.act.now), op.act.digit, op.act.now);
    }
  }

  lemma {:induction false} RoomRunKeeps(c: Config, r: Room, ops: seq<Op>)
    requires RoomKept(c, r)
    ensures RoomKept(c, RoomRun(c, r, ops))
    decreases |ops|
  {
    hide RoomKept, RoomStep;
    if ops != [] {
      RoomStepKeeps(c, r, ops[0]);
      RoomRunKeeps(c, RoomStep(c, r, ops[0]), ops[1..]);
    }
  }

  /** Whatever happened before, whoever was promoted: the digits a participant's commands wait on lead on. */
  lemma KeptDigitsLeadOn(c: Config, ops: seq<Op>, p: string)
    requires p in RoomRun(c, EMPTY_ROOM, ops).sequences
    ensures var q := RoomRun(c, EMPTY_ROOM, ops).sequences[p];
            !q.enteringPin && !q.enteringDialout ==> Waited(c, q.digits) && IsPartialMatch(c, q.digits)
  {
    hide RoomRun, IsPartialMatch, MatchCommand;
    RoomRunKeeps(c, EMPTY_ROOM, ops);
    var digits := RoomRun(c, EMPTY_ROOM, ops).sequences[p].digits;
    NothingLeadsOn(c);
    assert digits[..|digits|] == digits;
    MatchMeans(c, digits, Host);
    MatchMeans(c, digits, Participant);
  }

  lemma NothingLeadsOn(c: Config)
    ensures IsPartialMatch(c, "")
  {
  }

  /** The next answer of a run, to a digit from `p`. */
  function Answer(c: Config, ops: seq<Op>, p: string, digit: char, now: nat): Output {
    LastAnswer(RoomStep(c, RoomRun(c, EMPTY_ROOM, ops), Op(p, Digit(digit, now))), p)
  }

  lemma AnswerIsPressed(c: Config, ops: seq<Op>, p: string, digit: char, now: nat)
    ensures Answer(c, ops, p, digit, now) ==
            if c.enabled then Press(c, SequenceOf(RoomRun(c, EMPTY_ROOM, ops).sequences, p, now), digit, now).1 else None
    ensures Kept(c, SequenceOf(RoomRun(c, EMPTY_ROOM, ops).sequences, p, now))
  {
    hide RoomRun, Press, Waited, InTime;
    RoomRunKeeps(c, EMPTY_ROOM, ops);
  }

  /** The digits on which a run answered a plain command. */
  lemma AnsweredOn(c: Config, ops: seq<Op>, p: string, digit: char, now: nat, cmd: Command, role: Role)
    returns (kept: string)
    requires Plain(cmd) && Answer(c, ops, p, digit, now) == Some((cmd, role))
    ensures c.enabled && Typable(c, kept + [digit]) && MatchCommand(c, kept + [digit], role) == Some(cmd)
  {
    hide Press, Answer, Kept, Typable, MatchCommand;
    var before := SequenceOf(RoomRun(c, EMPTY_ROOM, ops).sequences, p, now);
    AnswerIsPressed(c, ops, p, digit, now);
    PressKeeps(c, before, digit, now);
    kept := Expired(c, before, now).digits;
  }

  // ---- a run that types what can be typed -----------------------------

  /** Time enough between two digits, where the timeout leaves it. */
  function Pace(c: Config): nat {
    if c.timeoutMs >= DEDUP_MS then DEDUP_MS else 0
  }

  /** At `now`, exactly `digits` have just been typed. */
  predicate JustTyped(q: Sequence, digits: string, now: nat) {
    && !q.enteringPin && !q.enteringDialout && q.digits == digits && q.startedAt == q.lastDigitTime == now
    && q.lastDigit == if digits == "" then None else Some(digits[|digits| - 1])
  }

  lemma NextDigit(c: Config, before: Sequence, digits: string, digit: char, now: nat, role: Role)
    requires JustTyped(before, digits, now) && InTime(c, digits + [digit])
    ensures var q := before.(isHost := role.Host?);
            var (after, out) := Press(c, q, digit, now + Pace(c));
            && (MatchCommand(c, digits + [digit], role) == Some(Incomplete) ==>
                 JustTyped(after, digits + [digit], now + Pace(c)))
            && (forall cmd :: Plain(cmd) && MatchCommand(c, digits + [digit], role) == Some(cmd) ==>
                 out == Some((cmd, role)))
  {
    hide MatchCommand, Repeats;
    if digits != "" {
      RepeatsWith(digits, digit);
    }
  }

  lemma {:induction false} RunOn(c: Config, r: Room, ops: seq<Op>, more: seq<Op>)
    ensures RoomRun(c, r, ops + more) == RoomRun(c, RoomRun(c, r, ops), more)
    decreases |ops|
  {
    hide RoomStep;
    if ops == [] {
      assert ops + more == more;
    } else {
      assert (ops + more)[1..] == ops[1..] + more;
      RunOn(c, RoomStep(c, r, ops[0]), ops[1..], more);
    }
  }

  /** The role in which the digits may be waited on. */
  function WaitingRole(c: Config, digits: string): (role: Role)
    requires MayWait(c, digits)
    ensures MatchCommand(c, digits, role) == Some(Incomplete)
  {
    if MatchCommand(c, digits, Host) == Some(Incomplete) then Host else Participant
  }

  function Promotion(role: Role, now: nat): Op {
    Op("", Promote(role.Host?, now))
  }

  /** Given the role first, the digit is pressed in it. */
  lemma PromotedPress(c: Config, r: Room, digits: string, digit: char, now: nat, role: Role)
    requires c.enabled && JustTyped(SequenceOf(r.sequences, "", now), digits, now)
    ensures var promoted := RoomStep(c, r, Promotion(role, now));
            var after := RoomStep(c, promoted, Op("", Digit(digit, now + Pace(c))));
            var q := SequenceOf(r.sequences, "", now).(isHost := role.Host?);
            && "" in after.sequences
            && (after.sequences[""], LastAnswer(after, "")) == Press(c, q, digit, now + Pace(c))
  {
    hide Press;
  }

  lemma {:induction false} TypesOut(c: Config, digits: string) returns (ops: seq<Op>, now: nat)
    requires c.enabled && Waited(c, digits) && InTime(c, digits)
    ensures JustTyped(SequenceOf(RoomRun(c, EMPTY_ROOM, ops).sequences, "", now), digits, now)
    decreases |digits|
  {
    hide MatchCommand, JustTyped, Press, RoomStep, MayWait, InTime, RoomRun;
    if digits == "" {
      ops, now := [], 0;
      NobodyTyped(c);
    } else {
      var before, digit := digits[..|digits| - 1], digits[|digits| - 1];
      assert before + [digit] == digits && digits[..|digits|] == digits;
      ShorterIsWaited(c, before, digit);
      var earlier, at := TypesOut(c, before);
      var role := WaitingRole(c, digits);
      var more := [Promotion(role, at), Op("", Digit(digit, at + Pace(c)))];
      ops, now := earlier + more, at + Pace(c);
      RunOn(c, EMPTY_ROOM, earlier, more);
      var r := RoomRun(c, EMPTY_ROOM, earlier);
      RunTwo(c, r, more[0], more[1]);
      PromotedPress(c, r, before, digit, at, role);
      NextDigit(c, SequenceOf(r.sequences, "", at), before, digit, at, role);
    }
  }

  lemma NobodyTyped(c: Config)
    ensures JustTyped(SequenceOf(RoomRun(c, EMPTY_ROOM, []).sequences, "", 0), "", 0)
  {
  }

  lemma ShorterIsWaited(c: Config, digits: string, digit: char)
    requires Waited(c, digits + [digit]) && InTime(c, digits + [digit])
    ensures Waited(c, digits) && InTime(c, digits) && MayWait(c, digits + [digit])
  {
    hide MayWait, Repeats;
    var all := digits + [digit];
    assert all[..|all|] == all;
    forall k | 0 < k <= |digits| ensures MayWait(c, digits[..k]) {
      assert all[..k] == digits[..k];
    }
    if digits != "" {
      RepeatsWith(digits, digit);
    } else {
      NoRepeat();
    }
  }

  lemma NoRepeat()
    ensures !Repeats("")
  {
  }

  lemma RunTwo(c: Config, r: Room, a: Op, b: Op)
    ensures RoomRun(c, r, [a, b]) == RoomStep(c, RoomStep(c, r, a), b)
  {
    hide RoomStep;
    assert [a, b][1..] == [b] && [b][1..] == [];
    assert RoomRun(c, RoomStep(c, r, a), [b]) == RoomStep(c, RoomStep(c, r, a), b);
  }

  /** Some run answers the command in the role. */
  ghost predicate CanBeAnswered(c: Config, cmd: Command, role: Role) {
    exists ops, p, digit, now :: Answer(c, ops, p, digit, now) == Some((cmd, role))
  }

  lemma TypableIsAnswered(c: Config, digits: string, cmd: Command, role: Role)
    requires c.enabled && Plain(cmd) && Typable(c, digits) && MatchCommand(c, digits, role) == Some(cmd)
    ensures CanBeAnswered(c, cmd, role)
  {
    hide MatchCommand, JustTyped, Press, RoomStep, MayWait, Waited, RoomRun, Plain, Repeats;
    var kept, digit := digits[..|digits| - 1], digits[|digits| - 1];
    assert kept + [digit] == digits;
    if kept != "" {
      RepeatsWith(kept, digit);
    } else {
      NoRepeat();
    }
    var ops, now := TypesOut(c, kept);
    var r := RoomRun(c, EMPTY_ROOM, ops);
    var role' := Promotion(role, now);
    PromotedPress(c, r, kept, digit, now, role);
    NextDigit(c, SequenceOf(r.sequences, "", now), kept, digit, now, role);
    RunOn(c, EMPTY_ROOM, ops, [role']);
    assert RoomRun(c, r, [role']) == RoomStep(c, r, role') by { RunOne(c, r, role'); }
    assert Answer(c, ops + [role'], "", digit, now + Pace(c)) == Some((cmd, role));
  }

  lemma RunOne(c: Config, r: Room, op: Op)
    ensures RoomRun(c, r, [op]) == RoomStep(c, r, op)
  {
    hide RoomStep;
    assert [op][1..] == [];
  }

  /**
   The exact condition: some run answers a command in a role if and only if some digits match it in
   that role, each proper prefix of them may be waited on, and the timeout leaves room for a
   repeated digit where there is one.
   */
  lemma AnsweredExactlyWhen(c: Config, cmd: Command, role: Role)
    requires Plain(cmd)
    ensures CanBeAnswered(c, cmd, role) <==>
            c.enabled && exists digits :: Typable(c, digits) && MatchCommand(c, digits, role) == Some(cmd)
  {
    hide Answer, Typable, MatchCommand, Plain;
    if CanBeAnswered(c, cmd, role) {
      var ops, p, digit, now :| Answer(c, ops, p, digit, now) == Some((cmd, role));
      var kept := AnsweredOn(c, ops, p, digit, now, cmd, role);
    }
    if c.enabled && exists digits :: Typable(c, digits) && MatchCommand(c, digits, role) == Some(cmd) {
      var digits :| Typable(c, digits) && MatchCommand(c, digits, role) == Some(cmd);
      TypableIsAnswered(c, digits, cmd, role);
    }
  }

  /** In no run is a participant command answered whose digits are ambiguous. */
  lemma AmbiguousIsNeverAnswered(c: Config, cmd: Command, role: Role)
    requires ForAll(cmd) && forall digits :: Bound(c, cmd, digits) ==> Ambiguous(c, digits)
    ensures !CanBeAnswered(c, cmd, role)
  {
    hide Typable, Ambiguous, MatchCommand, Bound, CanBeAnswered;
    AnsweredExactlyWhen(c, cmd, role);
    forall digits ensures MatchCommand(c, digits, role) != Some(cmd) {
      NeverMatched(c, digits, role, cmd);
    }
  }

  /** Nor is one whose digits begin with another participant command's that is not ambiguous. */
  lemma LongerIsNeverAnswered(c: Config, shorter: string, cmd: Command, role: Role)
    requires ForAll(cmd) && shorter != "" && ParticipantCommand(c, shorter).Some? && !Ambiguous(c, shorter)
    requires forall digits :: Bound(c, cmd, digits) ==> shorter < digits
    ensures !CanBeAnswered(c, cmd, role)
  {
    hide Ambiguous, Bound, CanBeAnswered, InTime;
    AnsweredExactlyWhen(c, cmd, role);
    MatchedAtOnce(c, shorter);
    forall digits | shorter < digits ensures !Typable(c, digits) {
      assert digits[..|digits| - 1][..|shorter|] == shorter;
    }
    forall digits ensures MatchCommand(c, digits, role) == Some(cmd) ==> Bound(c, cmd, digits) {
      MatchedIsBound(c, digits, role);
    }
  }

  lemma MatchedAtOnce(c: Config, digits: string)
    requires ParticipantCommand(c, digits).Some? && !Ambiguous(c, digits)
    ensures !MayWait(c, digits)
  {
    hide IsHostCommandPrefix, LongestHostCommandLength;
  }

  lemma NeverMatched(c: Config, digits: string, role: Role, cmd: Command)
    requires ForAll(cmd) && forall d :: Bound(c, cmd, d) ==> Ambiguous(c, d)
    ensures MatchCommand(c, digits, role) != Some(cmd)
  {
    hide MatchCommand, Ambiguous;
    MatchedIsBound(c, digits, role);
    if MatchCommand(c, digits, role) == Some(cmd) {
      assert Ambiguous(c, digits);
      NotWhenAmbiguous(c, digits, role);
    }
  }

  lemma MatchedUnlessAmbiguous(c: Config, digits: string, role: Role)
    requires ParticipantCommand(c, digits).Some? && !Ambiguous(c, digits)
    ensures MatchCommand(c, digits, role) == ParticipantCommand(c, digits)
  {
  }

  lemma NotWhenAmbiguous(c: Config, digits: string, role: Role)
    requires Ambiguous(c, digits)
    ensures MatchCommand(c, digits, role).Some? ==> !ForAll(MatchCommand(c, digits, role).value)
  {
    hide ParseNumber, LongestHostCommandLength, IsHostCommandPrefix;
  }

  const DEFAULT_PARTICIPANT := ParticipantCommands("*6", "*7", "*8", "*0", "*9")
  const DEFAULT_HOST := HostCommands("##", "*91", "*92", "*93", "*94", "*00", "*5")

  predicate DefaultBindings(c: Config) {
    c.participant == DEFAULT_PARTICIPANT && c.host == DEFAULT_HOST
  }

  /**
   With the default bindings `*0` and `*9` begin the host commands `*00` and `*91`: in no run is
   anyone answered with the conference information or let leave, although both are offered to all.
   */
  lemma DefaultsNeverInformOrLeave(c: Config, role: Role)
    requires DefaultBindings(c)
    ensures !CanBeAnswered(c, Info, role) && !CanBeAnswered(c, Leave, role)
  {
    hide CanBeAnswered, Ambiguous;
    DefaultsAreAmbiguous(c);
    AmbiguousIsNeverAnswered(c, Info, role);
    AmbiguousIsNeverAnswered(c, Leave, role);
  }

  lemma DefaultsAreAmbiguous(c: Config)
    requires DefaultBindings(c)
    ensures Ambiguous(c, "*0") && Ambiguous(c, "*9") && !Ambiguous(c, "*6") && !Ambiguous(c, "*7") && !Ambiguous(c, "*8")
  {
    assert "*0" <= "*00" && "*9" <= "*91";
    assert !("*6" <= "*91") && !("*7" <= "*91") && !("*8" <= "*91");
  }

  /** Not ambiguous is not enough: with `*6` bound to one command, the one bound to `*67` is never answered. */
  lemma LongerBindingIsNeverAnswered(c: Config, role: Role)
    requires c.participant == DEFAULT_PARTICIPANT.(volumeUp := "*67") && c.host == DEFAULT_HOST
    ensures ParticipantCommand(c, "*67") == Some(VolumeUp) && !Ambiguous(c, "*67")
    ensures !CanBeAnswered(c, VolumeUp, role)
  {
    hide CanBeAnswered;
    assert "*67"[1] == '6' && "*6"[1] == '6' && "*6" < "*67" && "*67" != "*6";
    assert !("*67" <= "*91") && !("*6" <= "*91");
    LongerIsNeverAnswered(c, "*6", VolumeUp, role);
  }

  // ---- how far a kick's number reaches --------------------------------

  /** A kick's digits, bound to nothing else. */
  predicate OnlyKick(c: Config, digits: string) {
    && IsKick(c, digits) && ParticipantCommand(c, digits).None?
    && digits !in [c.host.muteAll, c.host.unmuteAll, c.host.lock, c.host.unlock, c.host.endConference]
  }

  /** The number a kick's digits name. */
  function Kicked(c: Config, digits: string): Option<nat>
    requires IsKick(c, digits)
  {
    ParseNumber(digits[|c.host.kickPrefix|..])
  }

  lemma KickMatchesExactlyWhen(c: Config, digits: string, role: Role, n: nat)
    ensures MatchCommand(c, digits, role) == Some(KickParticipant(n)) <==>
            role.Host? && OnlyKick(c, digits) && Kicked(c, digits) == Some(n)
  {
    hide ParseNumber, LongestHostCommandLength, IsHostCommandPrefix;
  }

  /** Digits past the kick prefix that a run can keep, and one more that makes a number above nine. */
  predicate ReachesBeyondNine(c: Config, kept: string, digit: char) {
    && Waited(c, kept) && IsKick(c, kept) && InTime(c, kept + [digit]) && OnlyKick(c, kept + [digit])
    && Kicked(c, kept + [digit]).Some? && Kicked(c, kept + [digit]).value > 9
  }

  ghost predicate KicksBeyondNine(c: Config) {
    exists n: nat, role :: n > 9 && CanBeAnswered(c, KickParticipant(n), role)
  }

  /**
   The exact condition: a participant above nine can be kicked if and only if some digits that go
   on from the kick prefix can be waited on, and a next digit then names such a participant.
   */
  lemma KicksBeyondNineExactlyWhen(c: Config)
    ensures KicksBeyondNine(c) <==> c.enabled && exists kept, digit :: ReachesBeyondNine(c, kept, digit)
  {
    hide CanBeAnswered, Waited, InTime, MatchCommand, OnlyKick, Kicked;
    if KicksBeyondNine(c) {
      var n: nat, role :| n > 9 && CanBeAnswered(c, KickParticipant(n), role);
      AnsweredExactlyWhen(c, KickParticipant(n), role);
      var digits :| Typable(c, digits) && MatchCommand(c, digits, role) == Some(KickParticipant(n));
      var kept, digit := digits[..|digits| - 1], digits[|digits| - 1];
      assert kept + [digit] == digits;
      KickMatchesExactlyWhen(c, digits, role, n);
      KickedBeyondNine(c, kept, digit);
      assert ReachesBeyondNine(c, kept, digit);
    }
    if kept, digit :| c.enabled && ReachesBeyondNine(c, kept, digit) {
      var n := Kicked(c, kept + [digit]).value;
      assert (kept + [digit])[..|kept|] == kept;
      KickMatchesExactlyWhen(c, kept + [digit], Host, n);
      AnsweredExactlyWhen(c, KickParticipant(n), Host);
    }
  }

  lemma KickedBeyondNine(c: Config, kept: string, digit: char)
    requires OnlyKick(c, kept + [digit]) && Kicked(c, kept + [digit]).Some?
    ensures Kicked(c, kept + [digit]).value > 9 ==> IsKick(c, kept)
  {
    hide ParseNumber, Decimal, ParticipantCommand;
    if !IsKick(c, kept) {
      KickNumber(c, kept, digit);
    }
  }

  lemma OneDigitIsRead(digit: char)
    ensures ParseNumber([digit]) == if '0' <= digit <= '9' then Some((digit - '0') as nat) else None
  {
    assert [digit][..0] == "";
    if '0' <= digit <= '9' {
      assert Decimal([digit]) == Decimal("") * 10 + (digit - '0') as nat;
    }
  }

  lemma KickNumber(c: Config, kept: string, digit: char)
    requires IsKick(c, kept + [digit]) && !IsKick(c, kept)
    ensures (kept + [digit])[|c.host.kickPrefix|..] == [digit]
    ensures ParseNumber([digit]) == if '0' <= digit <= '9' then Some((digit - '0') as nat) else None
  {
    assert c.host.kickPrefix == (kept + [digit])[..|c.host.kickPrefix|];
    OneDigitIsRead(digit);
  }

  /** Where no digits past the prefix can be waited on, a kick's number is the one digit after it. */
  lemma KicksAreOneDigit(c: Config, ops: seq<Op>, p: string, digit: char, now: nat)
    requires forall digits :: Waited(c, digits) ==> !IsKick(c, digits)
    ensures var answer := Answer(c, ops, p, digit, now);
            answer.Some? && answer.value.0.KickParticipant? ==>
              '0' <= digit <= '9' && answer.value.0.number == (digit - '0') as nat
  {
    hide Answer, Waited, MatchCommand, ParseNumber, InTime;
    var answer := Answer(c, ops, p, digit, now);
    if answer.Some? && answer.value.0.KickParticipant? {
      var kept := AnsweredOn(c, ops, p, digit, now, answer.value.0, answer.value.1);
      assert (kept + [digit])[..|kept|] == kept;
      KickMatchesExactlyWhen(c, kept + [digit], answer.value.1, answer.value.0.number);
      KickNumber(c, kept, digit);
    }
  }

  /** Digits past the kick prefix may be waited on exactly when they lead on and are no kick themselves. */
  lemma KickDigitsMayWait(c: Config, digits: string)
    requires IsKick(c, digits) && ParticipantCommand(c, digits).None?
    ensures MayWait(c, digits) <==> IsPartialMatch(c, digits) && (c.hostPin.None? || HostCommand(c, digits).None?)
  {
    hide ParseNumber;
  }

  /** Nothing bound with the default commands goes on from `##`, but possibly a lock. */
  predicate LockOnly(c: Config) {
    c.participant == DEFAULT_PARTICIPANT && c.host == DEFAULT_HOST.(lock := c.host.lock)
  }

  lemma HashesAreKicks(c: Config, digits: string)
    requires LockOnly(c) && |digits| >= 3 && digits[..2] == "##"
    ensures IsKick(c, digits) && ParticipantCommand(c, digits).None? && Kicked(c, digits) == ParseNumber(digits[2..])
    ensures IsPartialMatch(c, digits) <==> digits <= c.host.lock
  {
    hide ParseNumber;
    assert digits[0] == digits[..2][0] == '#';
  }

  /**
   A binding that goes on from the kick prefix does not by itself reach further: with a host PIN,
   the digits before its last are answered, or ask for the PIN, at once.
   */
  lemma LongerLockKicksOneDigit(c: Config)
    requires c.hostPin.Some? && LockOnly(c) && c.host.lock == "##12"
    ensures LeadsOn(c, "##1") && IsKick(c, "##1") && !KicksBeyondNine(c)
  {
    hide KicksBeyondNine, InTime, ParseNumber, Decimal, Kicked, OnlyKick, MayWait;
    KicksBeyondNineExactlyWhen(c);
    assert "##1"[..2] == "##";
    HashesAreKicks(c, "##1");
    forall kept, digit ensures !ReachesBeyondNine(c, kept, digit) {
      if Waited(c, kept) && IsKick(c, kept) {
        var first := kept[..3];
        assert first[..2] == kept[..2] == "##";
        HashesAreKicks(c, first);
        KickDigitsMayWait(c, first);
        assert first <= "##12" ==> first[2] == '1';
        assert first[2..] == [first[2]];
        OneDigitIsRead(first[2]);
      }
    }
  }

  /** Without a PIN to ask for, the same digits are waited on, and 15 is kicked by whoever is then made a host. */
  lemma LongerLockKicksBeyondNine(c: Config)
    requires c.hostPin.None? && LockOnly(c) && c.host.lock == "##12" && c.enabled && c.timeoutMs >= DEDUP_MS
    ensures CanBeAnswered(c, KickParticipant(15), Host) && KicksBeyondNine(c)
  {
    hide MatchCommand, CanBeAnswered, MayWait, Kicked, ParseNumber;
    HashesMayBeWaitedOn(c);
    assert "##1"[..2] == "##15"[..2] == "##" && "##1" <= "##12" && "##15"[2..] == "15";
    HashesAreKicks(c, "##1");
    KickDigitsMayWait(c, "##1");
    HashesAreKicks(c, "##15");
    FifteenIsRead();
    KickMatchesExactlyWhen(c, "##15", Host, 15);
    assert "##15"[..3] == "##1" && "##1"[..1] == "#" && "##1"[..3] == "##1";
    TypableIsAnswered(c, "##15", KickParticipant(15), Host);
  }

  lemma HashesMayBeWaitedOn(c: Config)
    requires LockOnly(c) && (c.host.lock == "##12" || c.host.lock == DEFAULT_HOST.lock)
    ensures MayWait(c, "#") && MayWait(c, "##")
  {
    assert "#" <= "##" && "##" <= "##";
    assert "#"[0] == '#' && "##"[0] == '#';
    assert ParticipantCommand(c, "#").None? && ParticipantCommand(c, "##").None?;
    assert !IsHostCommand(c, "#") && !IsHostCommand(c, "##");
  }

  lemma FifteenIsRead()
    ensures ParseNumber("15") == Some(15)
  {
    assert "15"[..1] == "1" && "1"[..0] == "";
    assert Decimal("1") == 1;
  }

  // ---- the default bindings, command by command -----------------------

  /** What a run with the default bindings needs for some run to answer the command. */
  predicate DefaultsAnswer(c: Config, cmd: Command, role: Role) {
    match cmd
    case MuteToggle => true
    case VolumeUp => true
    case VolumeDown => true
    case EndConference => role.Host? && c.timeoutMs >= DEDUP_MS
    case KickParticipant(n) => role.Host? && n <= 9 && c.timeoutMs >= DEDUP_MS
    case MuteAll => role.Host?
    case UnmuteAll => role.Host?
    case LockConference => role.Host?
    case UnlockConference => role.Host?
    case _ => false
  }

  /**
   The default bindings exactly: some run answers a command if and only if it is not the information
   or leave, is a host's where only hosts may give it, kicks one of participants 0 to 9, and, for
   `*00` and the kicks, whose digits repeat, the timeout is not shorter than the time that tells a
   repeat from a duplicate.
   */
  lemma DefaultsAnswerExactly(c: Config, cmd: Command, role: Role)
    requires Plain(cmd) && DefaultBindings(c)
    ensures CanBeAnswered(c, cmd, role) <==> c.enabled && DefaultsAnswer(c, cmd, role)
  {
    hide CanBeAnswered, MatchCommand, Typable, ParseNumber;
    AnsweredExactlyWhen(c, cmd, role);
    if digits :| Typable(c, digits) && MatchCommand(c, digits, role) == Some(cmd) {
      DefaultsAnswerOnly(c, cmd, role, digits);
    }
    if DefaultsAnswer(c, cmd, role) {
      var digits := DefaultsAreTypable(c, cmd, role);
    }
  }

  lemma TwoAreTypable(c: Config, a: char, b: char)
    requires MayWait(c, [a]) && a != b
    ensures Typable(c, [a, b])
  {
    hide MayWait;
    assert [a, b][..1] == [a] && [a][..1] == [a];
  }

  lemma ThreeAreTypable(c: Config, a: char, b: char, d: char)
    requires MayWait(c, [a]) && MayWait(c, [a, b]) && (a == b || b == d ==> c.timeoutMs >= DEDUP_MS)
    ensures Typable(c, [a, b, d])
  {
    hide MayWait;
    assert [a, b, d][..2] == [a, b] && [a, b][..1] == [a] && [a, b][..2] == [a, b];
  }

  lemma DefaultsMayWait(c: Config)
    requires DefaultBindings(c)
    ensures MayWait(c, "*") && MayWait(c, "*9") && MayWait(c, "*0") && MayWait(c, "#") && MayWait(c, "##")
  {
    DefaultsAreAmbiguous(c);
    HashesMayBeWaitedOn(c);
    assert "*" <= "*6" && !IsHostCommand(c, "*") && "*9" != "*6";
  }

  lemma DefaultsMatch(c: Config, cmd: Command, digits: string)
    requires DefaultBindings(c) && ForHosts(cmd) && !cmd.KickParticipant? && Bound(c, cmd, digits)
    ensures MatchCommand(c, digits, Host) == Some(cmd)
  {
    hide ParseNumber;
    assert digits[0] == '*';
  }

  /** The digits to type for each command. */
  lemma DefaultsAreTypable(c: Config, cmd: Command, role: Role) returns (digits: string)
    requires Plain(cmd) && DefaultBindings(c) && DefaultsAnswer(c, cmd, role)
    ensures Typable(c, digits) && MatchCommand(c, digits, role) == Some(cmd)
  {
    hide MatchCommand, MayWait, Typable, ParseNumber, Ambiguous;
    DefaultsMayWait(c);
    if ForAll(cmd) {
      digits := if cmd.MuteToggle? then "*6" else if cmd.VolumeUp? then "*7" else "*8";
      TwoAreTypable(c, '*', digits[1]);
      DefaultsAreAmbiguous(c);
      MatchedUnlessAmbiguous(c, digits, role);
    } else if cmd.KickParticipant? {
      var digit := '0' + cmd.number as char;
      digits := ['#', '#', digit];
      ThreeAreTypable(c, '#', '#', digit);
      assert digits[..2] == "##" && digits[2..] == [digit];
      HashesAreKicks(c, digits);
      OneDigitIsRead(digit);
      KickMatchesExactlyWhen(c, digits, role, cmd.number);
    } else {
      digits := match cmd
        case MuteAll => "*91"
        case UnmuteAll => "*92"
        case LockConference => "*93"
        case UnlockConference => "*94"
        case _ => "*00";
      ThreeAreTypable(c, '*', digits[1], digits[2]);
      DefaultsMatch(c, cmd, digits);
    }
  }

  lemma DefaultsAnswerOnly(c: Config, cmd: Command, role: Role, digits: string)
    requires Plain(cmd) && DefaultBindings(c) && Typable(c, digits) && MatchCommand(c, digits, role) == Some(cmd)
    ensures DefaultsAnswer(c, cmd, role)
  {
    hide MatchCommand, ParseNumber, Ambiguous, Decimal;
    MatchedIsBound(c, digits, role);
    if ForAll(cmd) {
      DefaultsAreAmbiguous(c);
      forall d | Bound(c, cmd, d) ensures cmd.Info? || cmd.Leave? ==> Ambiguous(c, d) {
      }
      if cmd.Info? || cmd.Leave? {
        NeverMatched(c, digits, role, cmd);
      }
    } else if cmd.EndConference? {
      assert digits[2] == digits[1];
    } else if cmd.KickParticipant? {
      assert digits[1] == digits[..2][1] == '#' && digits[0] == digits[..2][0] == '#';
      DefaultsKickOneDigit(c, digits, role, cmd.number);
    }
  }

  /** With the default bindings only participants 0 to 9 are kicked. */
  lemma DefaultsKickOneDigit(c: Config, digits: string, role: Role, n: nat)
    requires DefaultBindings(c) && Typable(c, digits) && MatchCommand(c, digits, role) == Some(KickParticipant(n))
    ensures n <= 9
  {
    hide MatchCommand, ParseNumber, Decimal, MayWait;
    var kept, digit := digits[..|digits| - 1], digits[|digits| - 1];
    assert kept + [digit] == digits;
    KickMatchesExactlyWhen(c, digits, role, n);
    if |kept| >= 3 {
      assert kept[..|kept|] == kept && kept[..2] == digits[..2] == "##" && kept[0] == kept[..2][0];
      assert c.host.lock[0] == '*';
      HashesAreKicks(c, kept);
      KickDigitsMayWait(c, kept);
    } else {
      KickNumber(c, kept, digit);
    }
  }

  /** Over every run, a command only hosts may give is answered only as a host's, after the whole PIN. */
  lemma HostCommandsFollowThePin(c: Config, ops: seq<Op>, p: string, digit: char, now: nat)
    requires c.enabled && NeverPromoted(Projected(ops, p))
    ensures var answer := Answer(c, ops, p, digit, now);
            answer.Some? && ForHosts(answer.value.0) ==>
              && answer.value.1.Host?
              && PinTyped(c, SoloStep(c, SoloRun(c, NOBODY, Projected(ops, p)), Digit(digit, now)).log)
  {
    hide Press, RoomRun, SoloRun, SoloStep, RoomStep, PinTyped, Dialled, LeadsOn, Projected, NeverPromoted, LastAnswer;
    AnswerIsPressed(c, ops, p, digit, now);
    PressForHosts(c, SequenceOf(RoomRun(c, EMPTY_ROOM, ops).sequences, p, now), digit, now);
    HostsHaveTypedThePin(c, ops, p, digit, now);
  }
}
