/** A worked scenario for the action notifier, over any rows of the given shape. */
module SendPushScenarios {

  import opened Wrappers
  import opened Push
  import opened SendPush

  /** The member-derived tokens of a host without a token and two guests with tokens. */
  lemma ScenarioTokens(members: seq<MemberRow>, host: string, amy: string, ben: string, tokAmy: string, tokBen: string)
    requires |members| == 3 && amy != ben
    requires members[0].userId == host && MemberToken(members[0]).None?
    requires members[1].userId == amy && MemberToken(members[1]) == Some(tokAmy)
    requires members[2].userId == ben && MemberToken(members[2]) == Some(tokBen)
    ensures MemberTokens(members) == map[amy := tokAmy, ben := tokBen]
  {
    assert members[..2][..1] == [members[0]];
    assert members[..2][..1][..0] == [];
    assert MemberTokens([members[0]]) == map[];
    assert MemberTokens(members[..2]) == map[amy := tokAmy];
  }

  lemma ScenarioRecipients(members: seq<MemberRow>, host: string, amy: string, ben: string)
    requires |members| == 3 && host != amy && host != ben
    requires members[0].userId == host && members[1].userId == amy && members[2].userId == ben
    ensures Without(UserIds(members), host) == [amy, ben]
  {
    var ids := UserIds(members);
    assert ids == [host, amy, ben];
    assert ids[1..] == [amy, ben];
    assert ids[1..][1..] == [ben];
    assert ids[1..][1..][1..] == [];
    assert Without(ids[1..][1..], host) == [ben];
    assert Without(ids[1..], host) == [amy, ben];
  }

  lemma ScenarioMessages(amy: string, ben: string, tokAmy: string, tokBen: string, body: string, eventId: string)
    requires amy != ben && tokAmy != "" && tokBen != ""
    ensures var tokens := map[amy := tokAmy, ben := tokBen];
      BuildMessages([amy, ben], tokens, CANCEL_TITLE, body, eventId)
      == [PushMessage(tokAmy, CANCEL_TITLE, body, DEFAULT_SOUND, eventId),
          PushMessage(tokBen, CANCEL_TITLE, body, DEFAULT_SOUND, eventId)]
  {
    var tokens := map[amy := tokAmy, ben := tokBen];
    BuildMessagesConcat([amy], [ben], tokens, CANCEL_TITLE, body, eventId);
    BuildMessagesSingle(amy, tokens, CANCEL_TITLE, body, eventId);
    BuildMessagesSingle(ben, tokens, CANCEL_TITLE, body, eventId);
    assert [amy] + [ben] == [amy, ben];
  }

  /** The scenario's batch: the two guests' messages, in member order. */
  lemma ScenarioBatch(
    members: seq<MemberRow>, host: string, amy: string, ben: string,
    tokAmy: string, tokBen: string, event: EventRow, eventId: string)
    requires |members| == 3 && host != amy && host != ben && amy != ben
    requires members[0].userId == host && MemberToken(members[0]).None?
    requires members[1].userId == amy && MemberToken(members[1]) == Some(tokAmy)
    requires members[2].userId == ben && MemberToken(members[2]) == Some(tokBen)
    ensures Notify(Cancel, eventId, host, event, members, None, None).batch
      == [PushMessage(tokAmy, CANCEL_TITLE, event.title + " was canceled", DEFAULT_SOUND, eventId),
          PushMessage(tokBen, CANCEL_TITLE, event.title + " was canceled", DEFAULT_SOUND, eventId)]
  {
    NotifyOtherMembers(Cancel, eventId, host, event, members, None, None);
    ScenarioTokens(members, host, amy, ben, tokAmy, tokBen);
    ScenarioRecipients(members, host, amy, ben);
    ScenarioMessages(amy, ben, tokAmy, tokBen, event.title + " was canceled", eventId);
  }

  /**
   * A host cancels an event with three members, only the two others having
   * tokens: exactly two "Event canceled" messages go out, to those two
   * tokens, each body naming the event.
   */
  lemma CancelByHostScenario(
    members: seq<MemberRow>, host: string, amy: string, ben: string,
    tokAmy: string, tokBen: string, title: string, eventId: string)
    requires |members| == 3 && host != "" && eventId != ""
    requires host != amy && host != ben && amy != ben
    requires members[0].userId == host && MemberToken(members[0]).None?
    requires members[1].userId == amy && MemberToken(members[1]) == Some(tokAmy)
    requires members[2].userId == ben && MemberToken(members[2]) == Some(tokBen)
    ensures HandleSendPush("POST", Some(Request(Some("cancel"), Some(eventId), Some(host))),
        Some(EventRow(eventId, title, host)), Fetched(members), None, None)
      == Reply(200, SentBody(2), [
        PushMessage(tokAmy, CANCEL_TITLE, title + " was canceled", DEFAULT_SOUND, eventId),
        PushMessage(tokBen, CANCEL_TITLE, title + " was canceled", DEFAULT_SOUND, eventId)])
  {
    var event := EventRow(eventId, title, host);
    assert ParseKind("cancel") == Some(Cancel);
    HandleReachesNotify("POST", Some(Request(Some("cancel"), Some(eventId), Some(host))),
      Some(event), Fetched(members), None, None);
    ScenarioBatch(members, host, amy, ben, tokAmy, tokBen, event, eventId);
  }

  /** An unrecognised type such as "explode" is refused with 400 and nothing is dispatched. */
  lemma UnknownTypeScenario(event: EventRow, members: seq<MemberRow>, actor: Option<ActorProfile>, host: Option<HostProfile>)
    ensures HandleSendPush("POST", Some(Request(Some("explode"), Some("e1"), Some("u1"))),
      Some(event), Fetched(members), actor, host) == Reply(400, ErrorBody("Invalid type"), [])
  {
  }
}
