/**
 Conference control by DTMF: digits accumulate per participant until they name a command.
 Host commands ask for the host PIN first; a dial-out collects a destination up to `#`.
 Times are in milliseconds, and the clock is passed in.
 */
module DtmfCommands {
  import opened Wrappers

  const DEDUP_MS := 80

  datatype ParticipantCommands =
    ParticipantCommands(muteToggle: string, volumeUp: string, volumeDown: string, info: string, leave: string)

  datatype HostCommands =
    HostCommands(kickPrefix: string, muteAll: string, unmuteAll: string, lock: string, unlock: string,
                 endConference: string, dialOut: string)

  datatype Config = Config(enabled: bool, participant: ParticipantCommands, host: HostCommands,
                           hostPin: Option<string>, timeoutMs: nat)

  datatype Command =
    | MuteToggle | VolumeUp | VolumeDown | Info | Leave
    | KickParticipant(number: nat) | MuteAll | UnmuteAll | LockConference | UnlockConference | EndConference
    | DialOut(destination: string)
    | EnterHostPin | EnterDialOut | InvalidCommand | Incomplete

  datatype Role = Participant | Host

  /** What a participant has typed so far. */
  datatype Sequence = Sequence(digits: string, startedAt: nat, isHost: bool, enteringPin: bool, enteringDialout: bool,
                               lastDigit: Option<char>, lastDigitTime: nat)

  function NewSequence(now: nat): Sequence {
    Sequence("", now, false, false, false, None, now)
  }

  function Elapsed(now: nat, since: nat): nat {
    if now >= since then now - since else 0
  }

  function Cleared(q: Sequence, now: nat): Sequence {
    q.(digits := "", startedAt := now, enteringPin := false, enteringDialout := false)
  }

  /** A repeat of the last digit too soon to be a second press. */
  predicate Duplicate(q: Sequence, digit: char, now: nat) {
    q.lastDigit == Some(digit) && Elapsed(now, q.lastDigitTime) < DEDUP_MS
  }

  function Added(q: Sequence, digit: char, now: nat): Sequence {
    q.(lastDigit := Some(digit), lastDigitTime := now, digits := q.digits + [digit], startedAt := now)
  }

  function Expired(c: Config, q: Sequence, now: nat): Sequence {
    if Elapsed(now, q.startedAt) > c.timeoutMs then Cleared(q, now) else q
  }

  function RoleOf(q: Sequence): Role {
    if q.isHost then Host else Participant
  }

  // ---- matching -------------------------------------------------------

  predicate IsHostCommandPrefix(c: Config, digits: string) {
    || digits <= c.host.muteAll || digits <= c.host.unmuteAll || digits <= c.host.lock || digits <= c.host.unlock
    || digits <= c.host.endConference || digits <= c.host.kickPrefix || digits <= c.host.dialOut
  }

  function Longer(a: nat, b: nat): nat {
    if a >= b then a else b
  }

  function LongestHostCommandLength(c: Config): nat {
    Longer(|c.host.muteAll|, Longer(|c.host.unmuteAll|, Longer(|c.host.lock|, Longer(|c.host.unlock|,
    Longer(|c.host.endConference|, Longer(|c.host.kickPrefix| + 2, |c.host.dialOut|))))))
  }

  predicate IsPartialMatch(c: Config, digits: string) {
    || digits <= c.participant.muteToggle || digits <= c.participant.volumeUp || digits <= c.participant.volumeDown
    || digits <= c.participant.info || digits <= c.participant.leave || IsHostCommandPrefix(c, digits)
  }

  predicate AllDecimal(s: string) {
    forall i :: 0 <= i < |s| ==> '0' <= s[i] <= '9'
  }

  function Decimal(s: string): nat
    requires AllDecimal(s)
  {
    if s == "" then 0 else Decimal(s[..|s| - 1]) * 10 + (s[|s| - 1] - '0') as nat
  }

  /** A 64-bit number as the standard library reads it: an optional plus, then digits. */
  function ParseNumber(s: string): Option<nat> {
    var digits := if |s| > 1 && s[0] == '+' then s[1..] else s;
    if digits == "" || !AllDecimal(digits) || Decimal(digits) >= 0x1_0000_0000_0000_0000 then None
    else Some(Decimal(digits))
  }

  function ParticipantCommand(c: Config, digits: string): Option<Command> {
    if digits == c.participant.muteToggle then Some(MuteToggle)
    else if digits == c.participant.volumeUp then Some(VolumeUp)
    else if digits == c.participant.volumeDown then Some(VolumeDown)
    else if digits == c.participant.info then Some(Info)
    else if digits == c.participant.leave then Some(Leave)
    else None
  }

  predicate IsKick(c: Config, digits: string) {
    c.host.kickPrefix <= digits && |digits| > |c.host.kickPrefix|
  }

  predicate IsHostCommand(c: Config, digits: string) {
    || digits == c.host.muteAll || digits == c.host.unmuteAll || digits == c.host.lock || digits == c.host.unlock
    || digits == c.host.endConference || IsKick(c, digits) || digits == c.host.dialOut
  }

  /** What a host's complete command does, if these digits are one that can be carried out. */
  function HostCommand(c: Config, digits: string): Option<Command> {
    if digits == c.host.muteAll then Some(MuteAll)
    else if digits == c.host.unmuteAll then Some(UnmuteAll)
    else if digits == c.host.lock then Some(LockConference)
    else if digits == c.host.unlock then Some(UnlockConference)
    else if digits == c.host.endConference then Some(EndConference)
    else if IsKick(c, digits) && ParseNumber(digits[|c.host.kickPrefix|..]).Some? then
      Some(KickParticipant(ParseNumber(digits[|c.host.kickPrefix|..]).value))
    else if digits == c.host.dialOut then Some(EnterDialOut)
    else None
  }

  function MatchCommand(c: Config, digits: string, role: Role): Option<Command> {
    var mine := ParticipantCommand(c, digits);
    if mine.Some? then
      if IsHostCommandPrefix(c, digits) && |digits| < LongestHostCommandLength(c) then Some(Incomplete) else mine
    else if IsHostCommand(c, digits) && role.Host? && HostCommand(c, digits).Some? then HostCommand(c, digits)
    else if IsHostCommand(c, digits) && role.Participant? && c.hostPin.Some? then Some(EnterHostPin)
    else if IsPartialMatch(c, digits) then Some(Incomplete)
    else None
  }

  // ---- one digit ------------------------------------------------------

  type Output = Option<(Command, Role)>

  function OnPinDigit(c: Config, q: Sequence, now: nat): (Sequence, Output) {
    if c.hostPin.None? then (Cleared(q, now), Some((InvalidCommand, Participant)))
    else if q.digits == c.hostPin.value then (Cleared(q.(isHost := true), now), Some((EnterHostPin, Host)))
    else if q.digits <= c.hostPin.value then (q, None)
    else (Cleared(q, now), Some((InvalidCommand, Participant)))
  }

  function WithoutTrailingHash(s: string): string {
    if s != "" && s[|s| - 1] == '#' then WithoutTrailingHash(s[..|s| - 1]) else s
  }

  function OnDialDigit(q: Sequence, digit: char, now: nat): (Sequence, Output) {
    if digit != '#' then (q, None)
    else
      var destination := WithoutTrailingHash(q.digits);
      (Cleared(q, now), Some((if destination == "" then InvalidCommand else DialOut(destination), Host)))
  }

  function OnCommandDigit(c: Config, q: Sequence, now: nat): (Sequence, Output) {
    match MatchCommand(c, q.digits, RoleOf(q))
    case Some(Incomplete) => (q, None)
    case Some(EnterHostPin) => (q.(enteringPin := true, digits := ""), None)
    case Some(EnterDialOut) => (q.(enteringDialout := true, digits := ""), None)
    case Some(cmd) => (Cleared(q, now), Some((cmd, RoleOf(q))))
    case None => (Cleared(q, now), Some((InvalidCommand, RoleOf(q))))
  }

  /** One digit from a participant, processing being enabled. */
  function Press(c: Config, before: Sequence, digit: char, now: nat): (Sequence, Output) {
    var q := Expired(c, before, now);
    if Duplicate(q, digit, now) then (q, None)
    else
      var q := Added(q, digit, now);
      if q.enteringPin then OnPinDigit(c, q, now)
      else if q.enteringDialout then OnDialDigit(q, digit, now)
      else OnCommandDigit(c, q, now)
  }

  // ---- the handler ----------------------------------------------------

  type Sequences = map<string, Sequence>

  function SequenceOf(m: Sequences, p: string, now: nat): Sequence {
    if p in m then m[p] else NewSequence(now)
  }

  class DtmfCommandHandler {
    const config: Config
    var sequences: Sequences

    constructor (config: Config)
      ensures this.config == config && sequences == map[]
    {
      this.config := config;
      sequences := map[];
    }

    /** Processes a digit; the command it completes, if any, and for which role. */
    method ProcessDigit(p: string, digit: char, now: nat) returns (r: Output)
      modifies `sequences
      ensures !config.enabled ==> r == None && sequences == old(sequences)
      ensures config.enabled ==>
                var (q, out) := Press(config, SequenceOf(old(sequences), p, now), digit, now);
                r == out && sequences == old(sequences)[p := q]
    {
      if !config.enabled {
        return None;
      }
      var q := SequenceOf(sequences, p, now);
      if Elapsed(now, q.startedAt) > config.timeoutMs {
        q := Cleared(q, now);
      }
      if Duplicate(q, digit, now) {
        sequences := sequences[p := q];
        return None;
      }
      q := Added(q, digit, now);
      if q.enteringPin {
        if config.hostPin.None? {
          q, r := Cleared(q, now), Some((InvalidCommand, Participant));
        } else if q.digits == config.hostPin.value {
          q := q.(isHost := true);
          q, r := Cleared(q, now), Some((EnterHostPin, Host));
        } else if q.digits <= config.hostPin.value {
          r := None;
        } else {
          q, r := Cleared(q, now), Some((InvalidCommand, Participant));
        }
      } else if q.enteringDialout {
        r := None;
        if digit == '#' {
          var destination := WithoutTrailingHash(q.digits);
          q := Cleared(q, now);
          r := Some((if destination == "" then InvalidCommand else DialOut(destination), Host));
        }
      } else {
        var role := RoleOf(q);
        match MatchCommand(config, q.digits, role)
        case Some(Incomplete) => r := None;
        case Some(EnterHostPin) => q, r := q.(enteringPin := true, digits := ""), None;
        case Some(EnterDialOut) => q, r := q.(enteringDialout := true, digits := ""), None;
        case Some(cmd) => q, r := Cleared(q, now), Some((cmd, role));
        case None => q, r := Cleared(q, now), Some((InvalidCommand, role));
      }
      sequences := sequences[p := q];
    }

    /** Sets a participant's host status, as when they joined with the host PIN. */
    method SetHost(p: string, isHost: bool, now: nat)
      modifies `sequences
      ensures sequences == old(sequences)[p := SequenceOf(old(sequences), p, now).(isHost := isHost)]
    {
      sequences := sequences[p := SequenceOf(sequences, p, now).(isHost := isHost)];
    }

    /** Forgets a participant who left. */
    method ClearParticipant(p: string)
      modifies `sequences
      ensures sequences == old(sequences) - {p}
    {
      sequences := sequences - {p};
    }

    function GetRole(p: string): Role
      reads this
    {
      if p in sequences then RoleOf(sequences[p]) else Participant
    }
  }
}
