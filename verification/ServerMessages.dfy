/** What the floor server's messages say to whoever reads them, by the lookups a reader uses. */
module ServerMessages {
  import opened Wrappers
  import opened Octets
  import opened Utf8
  import opened Messages
  import opened Accessors
  import opened OrderedKeys
  import opened FloorServers
  import opened Subscribers

  // ---- lookups find the first -----------------------------------------

  lemma {:induction false} PriorityIsFirst(s: seq<Attribute>, i: nat)
    requires i <= |s| && forall j :: 0 <= j < i ==> !s[j].PriorityAttr?
    ensures i < |s| && s[i].PriorityAttr? ==> PriorityIn(s) == s[i].priority
    ensures i == |s| ==> PriorityIn(s) == Normal
    decreases i
  {
    if i > 0 {
      PriorityIsFirst(s[1..], i - 1);
    }
  }

  lemma {:induction false} TextIsFirst(s: seq<Attribute>, kind: TextKind, i: nat)
    requires i <= |s| && forall j :: 0 <= j < i ==> !(s[j].TextAttr? && s[j].textKind == kind)
    ensures i < |s| && s[i].TextAttr? && s[i].textKind == kind ==> TextIn(s, kind) == Some(s[i].text)
    ensures i == |s| ==> TextIn(s, kind) == None
    decreases i
  {
    if i > 0 {
      TextIsFirst(s[1..], kind, i - 1);
    }
  }

  lemma {:induction false} StatusIsFirst(s: seq<Attribute>, i: nat)
    requires i <= |s| && forall j :: 0 <= j < i ==> !s[j].RequestStatus?
    ensures i < |s| && s[i].RequestStatus? ==> StatusIn(s) == Some(s[i].status)
    ensures i == |s| ==> StatusIn(s) == None
    decreases i
  {
    if i > 0 {
      StatusIsFirst(s[1..], i - 1);
    }
  }

  /** An id is listed exactly when the message carries it at the top level, and the first one is found. */
  lemma {:induction false} IdsAreThose(s: seq<Attribute>, kind: IdKind, v: U16)
    ensures v in IdsOf(s, kind) <==> Id(kind, v) in s
    ensures IdsOf(s, kind) != [] ==>
              exists i :: 0 <= i < |s| && s[i] == Id(kind, IdsOf(s, kind)[0])
                          && forall j :: 0 <= j < i ==> !(s[j].Id? && s[j].idKind == kind)
  {
    if s != [] {
      IdsAreThose(s[1..], kind, v);
      if s[0].Id? && s[0].idKind == kind {
        assert s[0] == Id(kind, IdsOf(s, kind)[0]);
      } else if IdsOf(s, kind) != [] {
        var i :| 0 <= i < |s[1..]| && s[1..][i] == Id(kind, IdsOf(s[1..], kind)[0])
                 && forall j :: 0 <= j < i ==> !(s[1..][j].Id? && s[1..][j].idKind == kind);
        assert s[i + 1] == Id(kind, IdsOf(s, kind)[0]);
        assert forall j :: 1 <= j < i + 1 ==> s[j] == s[1..][j - 1];
      }
    }
  }

  // ---- what a request's information carries ---------------------------

  lemma TextFollows(before: seq<Attribute>, kind: TextKind, text: Option<Text>)
    requires forall j :: 0 <= j < |before| ==> !(before[j].TextAttr? && before[j].textKind == kind)
    ensures TextIn(before + TextAttrs(kind, text), kind) == text
  {
    hide ValidUtf8;
    TextIsFirst(before + TextAttrs(kind, text), kind, |before|);
  }

  /** A request's information gives its status overall and for the floor, its priority, text and reason. */
  lemma InfoCarries(s: Server, r: Request, info: Option<Text>)
    ensures var a := RequestInfo(s, r, info);
            && a.Group? && a.id == r.id && |a.attributes| >= 4
            && a.attributes[0].Group? && a.attributes[0].groupKind.OverallRequestStatus? && a.attributes[0].id == r.id
            && StatusIn(a.attributes[0].attributes) == Some(r.status)
            && TextIn(a.attributes[0].attributes, StatusInfo) == info
            && a.attributes[1] == Group(GroupKind.FloorRequestStatus, s.floorId, [RequestStatus(r.status, 0)])
            && a.attributes[2] == BeneficiaryInfo(s, r.userId)
            && PriorityIn(a.attributes) == r.priority
            && TextIn(a.attributes, ParticipantProvidedInfo) == r.info
  {
    hide TextAttrs, BeneficiaryInfo, ValidUtf8, PriorityIn;
    var a := RequestInfo(s, r, info);
    NamesCarried(s, r.userId);
    PriorityIsFirst(a.attributes, 3);
    TextFollows([RequestStatus(r.status, 0)], StatusInfo, info);
    TextFollows(a.attributes[..4], ParticipantProvidedInfo, r.info);
    assert a.attributes[..4] + TextAttrs(ParticipantProvidedInfo, r.info) == a.attributes;
  }

  /** A beneficiary's information gives the id and whatever name and URI the user was added with. */
  lemma NamesCarried(s: Server, userId: U16)
    ensures var a := BeneficiaryInfo(s, userId);
            && a.Group? && a.groupKind.BeneficiaryInformation? && a.id == userId
            && TextIn(a.attributes, UserDisplayName) == (if userId in s.users then s.users[userId].displayName else None)
            && TextIn(a.attributes, UserUri) == (if userId in s.users then s.users[userId].uri else None)
  {
    hide ValidUtf8;
    if userId in s.users {
      var u := s.users[userId];
      var name, uri := TextAttrs(UserDisplayName, u.displayName), TextAttrs(UserUri, u.uri);
      TextFollows(name, UserUri, u.uri);
      TextIsFirst(name + uri, UserDisplayName, if u.displayName.Some? then 0 else |uri|);
    }
  }

  // ---- what the statuses list -----------------------------------------

  /** A FloorStatus names the floor and lists every ongoing request once, by ascending id, with its status. */
  lemma FloorMessageLists(s: Server, echo: Echo)
    requires Inv(s)
    ensures var m := FloorMessage(s, echo);
            var infos := Informations(m.attributes);
            && m.attributes != [] && m.attributes[0] == Id(FloorId, s.floorId)
            && |infos| == |s.requests|
            && (forall i :: 0 <= i < |infos| ==>
                 && infos[i].id in s.requests
                 && OverallStatus(infos[i].attributes) == Some(s.requests[infos[i].id].status))
            && (forall i, j :: 0 <= i < j < |infos| ==> infos[i].id < infos[j].id)
  {
    hide RequestInfo, Ascending, RequestInfos, OverallStatus, Inv, Informations;
    var ids := Ascending(s.requests.Keys);
    var infos := RequestInfos(s, ids);
    var m := FloorMessage(s, echo);
    assert m.attributes == [Id(FloorId, s.floorId)] + infos by {
      assert [] + [Id(FloorId, s.floorId)] == [Id(FloorId, s.floorId)];
    }
    ListedRequests(s, ids);
    SkipFloorId(s.floorId, infos);
    assert |s.requests| == |s.requests.Keys|;
  }

  lemma ListedRequests(s: Server, ids: seq<U16>)
    requires Inv(s) && Ascends(ids) && forall i :: 0 <= i < |ids| ==> ids[i] in s.requests
    ensures var infos := RequestInfos(s, ids);
            && Informations(infos) == infos && |infos| == |ids|
            && forall i :: 0 <= i < |infos| ==>
                 && infos[i].Group? && infos[i].id == ids[i]
                 && OverallStatus(infos[i].attributes) == Some(s.requests[ids[i]].status)
  {
    hide RequestInfo, OverallStatus, RequestInfos;
    var infos := RequestInfos(s, ids);
    forall i | 0 <= i < |ids|
      ensures infos[i].Group? && infos[i].groupKind.FloorRequestInformation? && infos[i].id == ids[i]
      ensures OverallStatus(infos[i].attributes) == Some(s.requests[ids[i]].status)
    {
      assert RequestOk(s, ids[i]);
      InfoSays(s, s.requests[ids[i]], None);
    }
    InformationsOfInfos(infos);
  }

  /** A UserStatus tells of the user asked about and lists their request, if they have one, and no other. */
  lemma UserMessageLists(s: Server, echo: Echo, about: U16)
    requires Inv(s)
    ensures var m := UserMessage(s, echo, about);
            var infos := Informations(m.attributes);
            && m.primitive.UserStatus? && m.attributes != [] && m.attributes[0] == BeneficiaryInfo(s, about)
            && |infos| <= 1
            && (infos == [] <==> forall id :: id in s.requests ==> s.requests[id].userId != about)
            && (forall i :: 0 <= i < |infos| ==>
                 && infos[i].id in s.requests && s.requests[infos[i].id].userId == about
                 && OverallStatus(infos[i].attributes) == Some(s.requests[infos[i].id].status))
  {
    hide RequestInfo, RequestInfos, OverallStatus, Inv, RequestsOf, BeneficiaryInfo, Informations;
    var ids := RequestsOf(s, about);
    var first := BeneficiaryInfo(s, about);
    assert UserMessage(s, echo, about).attributes == [first] + RequestInfos(s, ids) by {
      assert [] + [first] == [first];
    }
    NamesCarried(s, about);
    ListedRequests(s, ids);
    SkipBeneficiary(first, RequestInfos(s, ids));
    OneRequestEach(s, about);
  }

  lemma OneRequestEach(s: Server, about: U16)
    requires Inv(s)
    ensures |RequestsOf(s, about)| <= 1
    ensures RequestsOf(s, about) == [] <==> forall id :: id in s.requests ==> s.requests[id].userId != about
    ensures forall i :: 0 <= i < |RequestsOf(s, about)| ==>
              RequestsOf(s, about)[i] in s.requests && s.requests[RequestsOf(s, about)[i]].userId == about
  {
    hide RequestOk, RequestsOf;
    var ids := RequestsOf(s, about);
    forall i | 0 <= i < |ids| ensures ids[i] in s.requests && s.requests[ids[i]].userId == about {
      assert ids[i] in ids;
    }
    var owned := OwnedBy(s, about);
    assert |ids| == |owned|;
    if id :| id in owned {
      assert owned == {id};
      assert id in ids;
    }
  }

  lemma SkipBeneficiary(first: Attribute, infos: seq<Attribute>)
    requires first.Group? && first.groupKind.BeneficiaryInformation?
    ensures Informations([first] + infos) == Informations(infos)
  {
    assert ([first] + infos)[1..] == infos;
  }

  /** A HelloAck lists every primitive, and every attribute type as the wire shifts it. */
  lemma HelloListsEverything(echo: Echo, p: Primitive, a: Attribute)
    requires !a.Unknown?
    ensures var m := HelloMessage(echo);
            && m.primitive.HelloAck? && m.AsEcho() == echo && |m.attributes| == 2
            && m.attributes[0].List? && m.attributes[0].listKind.SupportedPrimitives?
            && |m.attributes[0].octets| == 17 && p.AsU8() in m.attributes[0].octets
            && m.attributes[1].List? && m.attributes[1].listKind.SupportedAttributes?
            && |m.attributes[1].octets| == 18 && AttrType(a) * 2 in m.attributes[1].octets
  {
    var m := HelloMessage(echo);
    assert m.attributes[0].octets[p.AsU8() - 1] == p.AsU8() by { PrimitiveAt(p); }
    assert m.attributes[1].octets[AttrType(a) - 1] == AttrType(a) * 2;
  }

  lemma PrimitiveAt(p: Primitive)
    ensures 1 <= p.AsU8() <= 17 && ALL_PRIMITIVES[p.AsU8() - 1] == p
  {
  }
}
