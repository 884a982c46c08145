/**
 What digits match, read off a table of the bindings: the first binding they are equal to, the
 bindings they begin, and the number a kick names.
 */
module DtmfTables {
  import opened Wrappers
  import opened DtmfCommands
  import opened DtmfBindings

  /** The commands offered to all, in the order they are looked for. */
  function ForAllTable(c: Config): seq<(string, Command)> {
    [(c.participant.muteToggle, MuteToggle), (c.participant.volumeUp, VolumeUp), (c.participant.volumeDown, VolumeDown),
     (c.participant.info, Info), (c.participant.leave, Leave)]
  }

  /** The host commands that are given by their digits alone, in order; a kick is looked for before dial-out. */
  function HostTable(c: Config): seq<(string, Command)> {
    [(c.host.muteAll, MuteAll), (c.host.unmuteAll, UnmuteAll), (c.host.lock, LockConference),
     (c.host.unlock, UnlockConference), (c.host.endConference, EndConference)]
  }

  /** `cmd` is bound to the digits, and nothing before it in the table is. */
  predicate FirstBound(table: seq<(string, Command)>, digits: string, cmd: Command) {
    exists i :: 0 <= i < |table| && table[i] == (digits, cmd) && forall j :: 0 <= j < i ==> table[j].0 != digits
  }

  predicate Unbound(table: seq<(string, Command)>, digits: string) {
    forall i :: 0 <= i < |table| ==> table[i].0 != digits
  }

  /** Some binding goes on from the digits, or is the digits. */
  predicate BeginsOne(bindings: seq<string>, digits: string) {
    exists i :: 0 <= i < |bindings| && digits <= bindings[i]
  }

  predicate ShorterThanOne(bindings: seq<string>, digits: string) {
    exists i :: 0 <= i < |bindings| && |digits| < |bindings[i]|
  }

  function HostBindings(c: Config): seq<string> {
    [c.host.muteAll, c.host.unmuteAll, c.host.lock, c.host.unlock, c.host.endConference, c.host.dialOut]
  }

  function ForAllBindings(c: Config): seq<string> {
    [c.participant.muteToggle, c.participant.volumeUp, c.participant.volumeDown, c.participant.info, c.participant.leave]
  }

  lemma ParticipantCommandIs(c: Config, digits: string)
    ensures ParticipantCommand(c, digits).None? <==> Unbound(ForAllTable(c), digits)
    ensures ParticipantCommand(c, digits).Some? ==> FirstBound(ForAllTable(c), digits, ParticipantCommand(c, digits).value)
  {
    var t := ForAllTable(c);
    assert t[0].1.MuteToggle? && t[1].1.VolumeUp? && t[2].1.VolumeDown? && t[3].1.Info? && t[4].1.Leave?;
  }

  /** A host's digits are looked for in the table, then as a kick, then as dial-out. */
  lemma HostCommandIs(c: Config, digits: string)
    ensures !Unbound(HostTable(c), digits) ==>
              HostCommand(c, digits).Some? && FirstBound(HostTable(c), digits, HostCommand(c, digits).value)
    ensures Unbound(HostTable(c), digits) ==>
              HostCommand(c, digits) ==
              if c.host.kickPrefix < digits && Kicked(c, digits).Some? then Some(KickParticipant(Kicked(c, digits).value))
              else if digits == c.host.dialOut then Some(EnterDialOut)
              else None
  {
    hide ParseNumber;
    var t := HostTable(c);
    assert t[0].1.MuteAll? && t[1].1.UnmuteAll? && t[2].1.LockConference? && t[3].1.UnlockConference?
        && t[4].1.EndConference?;
  }

  /** A kick waits for at least two digits after its prefix, as far as ambiguity goes. */
  lemma AmbiguousExactlyWhen(c: Config, digits: string)
    ensures Ambiguous(c, digits) <==>
            && (BeginsOne(HostBindings(c), digits) || digits <= c.host.kickPrefix)
            && (ShorterThanOne(HostBindings(c), digits) || |digits| < |c.host.kickPrefix| + 2)
  {
    var b := HostBindings(c);
    assert b[0] == c.host.muteAll && b[1] == c.host.unmuteAll && b[2] == c.host.lock && b[3] == c.host.unlock;
    assert b[4] == c.host.endConference && b[5] == c.host.dialOut;
  }

  lemma PartialExactlyWhen(c: Config, digits: string)
    ensures IsPartialMatch(c, digits) <==>
            BeginsOne(ForAllBindings(c) + HostBindings(c), digits) || digits <= c.host.kickPrefix
  {
    var b := ForAllBindings(c) + HostBindings(c);
    assert b[0] == c.participant.muteToggle && b[1] == c.participant.volumeUp && b[2] == c.participant.volumeDown;
    assert b[3] == c.participant.info && b[4] == c.participant.leave && b[5] == c.host.muteAll;
    assert b[6] == c.host.unmuteAll && b[7] == c.host.lock && b[8] == c.host.unlock;
    assert b[9] == c.host.endConference && b[10] == c.host.dialOut;
  }

  /** Digits of a host command: one of the table, a kick or dial-out. */
  predicate Hosts(c: Config, digits: string) {
    !Unbound(HostTable(c), digits) || c.host.kickPrefix < digits || digits == c.host.dialOut
  }

  /**
   What digits match, by the table: a participant command unless a host command may yet follow, a
   host's for a host, the PIN for anyone else where there is one, and otherwise waiting while some
   binding goes on.
   */
  lemma MatchIs(c: Config, digits: string, role: Role)
    ensures var (mine, host) := (ParticipantCommand(c, digits), HostCommand(c, digits));
            MatchCommand(c, digits, role) ==
            if !Unbound(ForAllTable(c), digits) then (if Ambiguous(c, digits) then Some(Incomplete) else mine)
            else if Hosts(c, digits) && role.Host? && host.Some? then host
            else if Hosts(c, digits) && role.Participant? && c.hostPin.Some? then Some(EnterHostPin)
            else if BeginsOne(ForAllBindings(c) + HostBindings(c), digits) || digits <= c.host.kickPrefix then Some(Incomplete)
            else None
  {
    hide ParticipantCommand, HostCommand, IsPartialMatch, IsHostCommandPrefix, LongestHostCommandLength, BeginsOne, Unbound;
    ParticipantCommandIs(c, digits);
    PartialExactlyWhen(c, digits);
    HostsIs(c, digits);
  }

  lemma HostsIs(c: Config, digits: string)
    ensures IsHostCommand(c, digits) <==> Hosts(c, digits)
  {
    var t := HostTable(c);
    assert t[0].0 == c.host.muteAll && t[1].0 == c.host.unmuteAll && t[2].0 == c.host.lock && t[3].0 == c.host.unlock
        && t[4].0 == c.host.endConference;
  }

  // ---- numbers --------------------------------------------------------

  /** A number in decimal digits. */
  function Rendered(n: nat): (s: string)
    ensures s != "" && AllDecimal(s)
  {
    (if n < 10 then "" else Rendered(n / 10)) + [('0' as int + n % 10) as char]
  }

  lemma {:induction false} RenderedIs(n: nat)
    ensures Decimal(Rendered(n)) == n && Rendered(n)[0] != '+'
  {
    var s := Rendered(n);
    if n < 10 {
      assert s[..0] == "" && Decimal(s) == Decimal("") * 10 + n;
    } else {
      RenderedIs(n / 10);
      assert s[..|s| - 1] == Rendered(n / 10) && s[|s| - 1] == ('0' as int + n % 10) as char;
      assert s[0] == Rendered(n / 10)[0];
    }
  }

  /** A number reads back from its digits, with a plus or without, as long as it fits sixty-four bits. */
  lemma NumbersReadBack(n: nat)
    ensures ParseNumber(Rendered(n)) == if n < 0x1_0000_0000_0000_0000 then Some(n) else None
    ensures ParseNumber("+" + Rendered(n)) == ParseNumber(Rendered(n))
  {
    hide Decimal, Rendered;
    RenderedIs(n);
    var s := "+" + Rendered(n);
    assert s[0] == '+' && s[1..] == Rendered(n);
  }
}
