/** What a floor server, and a client, looks up in a message's attributes. */
module Accessors {
  import opened Wrappers
  import opened Octets
  import opened Utf8
  import opened Messages

  /** Every top-level id of a kind, in order. */
  function IdsOf(s: seq<Attribute>, kind: IdKind): seq<U16> {
    if s == [] then []
    else (if s[0].Id? && s[0].idKind == kind then [s[0].value] else []) + IdsOf(s[1..], kind)
  }

  function FirstIdOf(m: Message, kind: IdKind): Option<U16> {
    var ids := IdsOf(m.attributes, kind);
    if ids == [] then None else Some(ids[0])
  }

  function PriorityIn(s: seq<Attribute>): Priority {
    if s == [] then Normal
    else if s[0].PriorityAttr? then s[0].priority
    else PriorityIn(s[1..])
  }

  function TextIn(s: seq<Attribute>, kind: TextKind): Option<Text> {
    if s == [] then None
    else if s[0].TextAttr? && s[0].textKind == kind then Some(s[0].text)
    else TextIn(s[1..], kind)
  }

  function StatusIn(s: seq<Attribute>): Option<Status> {
    if s == [] then None
    else if s[0].RequestStatus? then Some(s[0].status)
    else StatusIn(s[1..])
  }

  /** The overall status inside a FLOOR-REQUEST-INFORMATION, if any. */
  function OverallStatus(info: seq<Attribute>): Option<Status> {
    if info == [] then None
    else if info[0].Group? && info[0].groupKind.OverallRequestStatus? && StatusIn(info[0].attributes).Some? then
      StatusIn(info[0].attributes)
    else OverallStatus(info[1..])
  }

  /** The FLOOR-REQUEST-INFORMATION groups, in order. */
  function Informations(s: seq<Attribute>): (infos: seq<Attribute>)
    ensures forall i :: 0 <= i < |infos| ==> infos[i].Group? && infos[i].groupKind.FloorRequestInformation?
  {
    if s == [] then []
    else
      (if s[0].Group? && s[0].groupKind.FloorRequestInformation? then [s[0]] else []) + Informations(s[1..])
  }

  /** The request and the status a FloorRequestStatus reports. */
  function ReportedStatus(m: Message): Option<(U16, Status)> {
    var infos := Informations(m.attributes);
    if infos == [] || OverallStatus(infos[0].attributes).None? then None
    else Some((infos[0].id, OverallStatus(infos[0].attributes).value))
  }

  /** The requests a message says are granted. */
  function GrantedIn(m: Message): set<U16> {
    var infos := Informations(m.attributes);
    set i | 0 <= i < |infos| && OverallStatus(infos[i].attributes) == Some(Granted) :: infos[i].id
  }
}
