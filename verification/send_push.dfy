/**
 * The action notifier (supabase/functions/send-push/index.ts): after a
 * join, update or cancel it decides who is told, with which words, and
 * reports how many messages it sent.
 *
 * Every data-store read is an input: the event row (`None` when the read
 * errs or finds nothing), the member rows, the actor's profile (read only
 * for a join) and the host's profile (read only for a join whose host has
 * no member token). The reply carries the batch handed to the push
 * gateway; the gateway's own outcome is caught and logged by the handler,
 * so no input stands for it and the reply cannot depend on it.
 */
module SendPush {

  import opened Wrappers
  import opened Push
  import Text

  datatype Kind = Join | Update | Cancel

  /** The fields read from the JSON body; `None` is an absent or null field. */
  datatype Request = Request(kind: Option<string>, eventId: Option<string>, actorId: Option<string>)

  /** The `id, title, host_id` columns of the event. */
  datatype EventRow = EventRow(id: string, title: string, hostId: string)

  datatype ActorProfile = ActorProfile(displayName: Option<string>, email: Option<string>)

  datatype HostProfile = HostProfile(pushToken: Option<string>)

  datatype ReplyBody = ErrorBody(error: string) | SentBody(sent: nat)

  /** The HTTP status and JSON body returned, and the messages dispatched (empty: no dispatch). */
  datatype Reply = Reply(status: int, body: ReplyBody, batch: seq<PushMessage>)

  const FALLBACK_NAME: string := "Someone"
  /**
   * The join title's last four characters are U+00F0 U+0178 U+017D U+2030,
   * exactly as they stand in the handler's text: the UTF-8 bytes of the
   * party-popper emoji read back as Windows-1252.
   */
  const JOIN_TITLE: string := "Someone joined your event \U{F0}\U{178}\U{17D}\U{2030}"
  const UPDATE_TITLE: string := "Event updated"
  const CANCEL_TITLE: string := "Event canceled"

  function ParseKind(kind: string): (k: Option<Kind>)
    ensures k == Some(Join) <==> kind == "join"
    ensures k == Some(Update) <==> kind == "update"
    ensures k == Some(Cancel) <==> kind == "cancel"
  {
    if kind == "join" then Some(Join)
    else if kind == "update" then Some(Update)
    else if kind == "cancel" then Some(Cancel)
    else None
  }

  /**
   * `display_name || email?.split("@")[0] || "Someone"` for a profile that
   * was found, and "Someone" when none was: never an empty name.
   */
  function ActorName(profile: Option<ActorProfile>): (name: string)
    ensures name != ""
  {
    match profile
    case None => FALLBACK_NAME
    case Some(p) =>
      if Truthy(p.displayName) then p.displayName.value
      else if p.email.Some? && Text.FirstPiece(p.email.value, '@') != "" then Text.FirstPiece(p.email.value, '@')
      else FALLBACK_NAME
  }

  /**
   * The fallback chain in full: the display name if non-empty; else the
   * email's text before its first "@" (the longest "@"-free prefix) if
   * non-empty; else "Someone".
   */
  lemma ActorNameFallbackChain(profile: Option<ActorProfile>)
    ensures profile.None? ==> ActorName(profile) == FALLBACK_NAME
    ensures profile.Some? && Truthy(profile.value.displayName) ==>
      ActorName(profile) == profile.value.displayName.value
    ensures profile.Some? && !Truthy(profile.value.displayName) && profile.value.email.Some? ==>
      var email := profile.value.email.value;
      var local := ActorName(profile);
      (local == FALLBACK_NAME && (|email| == 0 || email[0] == '@'))
      || (local <= email && '@' !in local && (|local| < |email| ==> email[|local|] == '@'))
    ensures profile.Some? && !Truthy(profile.value.displayName) && profile.value.email.None? ==>
      ActorName(profile) == FALLBACK_NAME
  {
    if profile.Some? && profile.value.email.Some? {
      Text.FirstPieceIsPrefixBeforeSeparator(profile.value.email.value, '@');
    }
  }

  /** The notification title of each action. */
  function Title(kind: Kind): string {
    match kind
    case Join => JOIN_TITLE
    case Update => UPDATE_TITLE
    case Cancel => CANCEL_TITLE
  }

  /** The three titles are pairwise different, so a title tells which action happened. */
  lemma TitleIdentifiesKind(a: Kind, b: Kind)
    ensures Title(a) == Title(b) <==> a == b
  {
  }

  /**
   * The notification body: a join names the actor first and the event
   * last; an update or a cancel starts with the event's title.
   */
  function Body(kind: Kind, actorName: string, eventTitle: string): (body: string)
    ensures kind == Join ==> actorName <= body && |eventTitle| <= |body| && body[|body| - |eventTitle|..] == eventTitle
    ensures kind != Join ==> eventTitle <= body && |body| > |eventTitle|
  {
    match kind
    case Join => actorName + " joined " + eventTitle
    case Update => eventTitle + " has new details"
    case Cancel => eventTitle + " was canceled"
  }

  /** `members.map((m) => m.user_id)`. */
  function UserIds(members: seq<MemberRow>): (ids: seq<string>)
    ensures |ids| == |members|
    ensures forall i :: 0 <= i < |members| ==> ids[i] == members[i].userId
  {
    if |members| == 0 then [] else [members[0].userId] + UserIds(members[1..])
  }

  /** `ids.filter((uid) => uid !== actor)`. */
  function Without(ids: seq<string>, actor: string): (kept: seq<string>)
    ensures actor !in kept
    ensures forall u :: u in kept <==> u in ids && u != actor
    ensures |kept| == |ids| - multiset(ids)[actor]
  {
    if |ids| == 0 then []
    else
      assert ids == [ids[0]] + ids[1..];
      var rest := Without(ids[1..], actor);
      if ids[0] != actor then [ids[0]] + rest else rest
  }

  /** Filtering keeps the order: it distributes over concatenation. */
  lemma {:induction false} WithoutConcat(a: seq<string>, b: seq<string>, actor: string)
    ensures Without(a + b, actor) == Without(a, actor) + Without(b, actor)
  {
    if |a| > 0 {
      assert (a + b)[1..] == a[1..] + b;
      WithoutConcat(a[1..], b, actor);
    } else {
      assert a + b == b;
    }
  }

  /** Who is addressed: the host alone for a join, every member but the actor otherwise. */
  function Recipients(kind: Kind, event: EventRow, members: seq<MemberRow>, actorId: string): (ids: seq<string>)
    ensures kind == Join ==> ids == [event.hostId]
    ensures kind != Join ==> ids == Without(UserIds(members), actorId)
  {
    match kind
    case Join => [event.hostId]
    case Update => Without(UserIds(members), actorId)
    case Cancel => Without(UserIds(members), actorId)
  }

  /**
   * The member-derived token map: a user is in it exactly when some row of
   * theirs carries a non-empty token, and the token is one of theirs.
   */
  function MemberTokens(members: seq<MemberRow>): (tokens: map<string, string>)
    ensures forall u :: u in tokens <==>
      exists i :: 0 <= i < |members| && members[i].userId == u && MemberToken(members[i]).Some?
    ensures forall u :: u in tokens ==>
      exists i :: 0 <= i < |members| && members[i].userId == u && MemberToken(members[i]) == Some(tokens[u])
  {
    if |members| == 0 then map[]
    else
      var front := members[..|members| - 1];
      var last := members[|members| - 1];
      var tokens := MemberTokens(front);
      assert forall i :: 0 <= i < |front| ==> front[i] == members[i];
      match MemberToken(last)
      case Some(t) => tokens[last.userId := t]
      case None => tokens
  }

  /** The token map the messages are built from: for a join, the host's own profile fills a gap. */
  function RecipientTokens(kind: Kind, hostId: string, members: seq<MemberRow>, host: Option<HostProfile>)
    : (tokens: map<string, string>)
    ensures kind != Join || hostId in MemberTokens(members) ==> tokens == MemberTokens(members)
    ensures forall u :: u != hostId ==> (u in tokens <==> u in MemberTokens(members))
    ensures forall u :: u in MemberTokens(members) ==> u in tokens && tokens[u] == MemberTokens(members)[u]
    ensures hostId in tokens && hostId !in MemberTokens(members)
      <==> kind == Join && hostId !in MemberTokens(members) && host.Some? && Truthy(host.value.pushToken)
    ensures hostId in tokens && hostId !in MemberTokens(members) ==> host.value.pushToken == Some(tokens[hostId])
  {
    var tokens := MemberTokens(members);
    if kind == Join && hostId !in tokens then
      if host.Some? && Truthy(host.value.pushToken) then tokens[hostId := host.value.pushToken.value] else tokens
    else tokens
  }

  predicate HasToken(tokens: map<string, string>, u: string) {
    u in tokens && tokens[u] != ""
  }

  /**
   * One message per recipient with a token, in recipient order; a
   * tokenless recipient is skipped. Every message goes to some recipient's
   * token and carries the shared title, body, sound and event id.
   */
  function BuildMessages(recipients: seq<string>, tokens: map<string, string>, title: string, body: string, eventId: string)
    : (messages: seq<PushMessage>)
    ensures |messages| <= |recipients|
    ensures forall m :: m in messages ==>
      && m.title == title && m.body == body && m.sound == DEFAULT_SOUND && m.eventId == eventId
      && exists u :: u in recipients && HasToken(tokens, u) && m.to == tokens[u]
    ensures (forall u :: u in recipients ==> HasToken(tokens, u)) ==> |messages| == |recipients|
    ensures (forall u :: u in recipients ==> !HasToken(tokens, u)) ==> messages == []
  {
    if |recipients| == 0 then []
    else
      var u := recipients[0];
      assert recipients == [u] + recipients[1..];
      var rest := BuildMessages(recipients[1..], tokens, title, body, eventId);
      if HasToken(tokens, u) then [PushMessage(tokens[u], title, body, DEFAULT_SOUND, eventId)] + rest
      else rest
  }

  /** Building distributes over concatenation of recipient lists: order is kept and nobody blocks anybody. */
  lemma {:induction false} BuildMessagesConcat(a: seq<string>, b: seq<string>, tokens: map<string, string>, title: string, body: string, eventId: string)
    ensures BuildMessages(a + b, tokens, title, body, eventId)
      == BuildMessages(a, tokens, title, body, eventId) + BuildMessages(b, tokens, title, body, eventId)
  {
    if |a| > 0 {
      assert (a + b)[0] == a[0];
      assert (a + b)[1..] == a[1..] + b;
      BuildMessagesConcat(a[1..], b, tokens, title, body, eventId);
    } else {
      assert a + b == b;
    }
  }

  /** A single recipient yields one message to their token, or none at all. */
  lemma BuildMessagesSingle(u: string, tokens: map<string, string>, title: string, body: string, eventId: string)
    ensures BuildMessages([u], tokens, title, body, eventId)
      == if HasToken(tokens, u) then [PushMessage(tokens[u], title, body, DEFAULT_SOUND, eventId)] else []
  {
    assert [u][1..] == [];
  }

  /** A request passes validation when it parsed and `type`, `event_id` and `actor_id` are all truthy. */
  predicate ValidRequest(body: Option<Request>) {
    body.Some? && Truthy(body.value.kind) && Truthy(body.value.eventId) && Truthy(body.value.actorId)
  }

  /** The whole handler, from request and reads to reply. */
  function HandleSendPush(
    httpMethod: string, body: Option<Request>,
    event: Option<EventRow>, members: Fetch<seq<MemberRow>>,
    actorProfile: Option<ActorProfile>, hostProfile: Option<HostProfile>): (reply: Reply)
    ensures reply.status == 200 <==> reply.body.SentBody?
    ensures reply.status == 200 ==> reply.body.sent == |reply.batch|
    ensures reply.status != 200 ==> reply.batch == []
    ensures reply.status in {200, 400, 404, 405, 500}
  {
    if httpMethod != "POST" then Reply(405, ErrorBody("Method not allowed"), [])
    else if body.None? then Reply(400, ErrorBody("Invalid JSON body"), [])
    else if !ValidRequest(body) then
      Reply(400, ErrorBody("Missing required fields: type, event_id, actor_id"), [])
    else if event.None? then Reply(404, ErrorBody("Event not found"), [])
    else if members.FetchFailed? then Reply(500, ErrorBody("Failed to fetch members"), [])
    else
      var req := body.value;
      match ParseKind(req.kind.value)
      case None => Reply(400, ErrorBody("Invalid type"), [])
      case Some(kind) => Notify(kind, req.eventId.value, req.actorId.value, event.value, members.value, actorProfile, hostProfile)
  }

  /** The part of the handler after validation and reads: recipients, tokens, messages and the count. */
  function Notify(
    kind: Kind, eventId: string, actorId: string, event: EventRow, members: seq<MemberRow>,
    actorProfile: Option<ActorProfile>, hostProfile: Option<HostProfile>): (reply: Reply)
    ensures reply.status == 200 && reply.body == SentBody(|reply.batch|)
  {
    var actorName := if kind == Join then ActorName(actorProfile) else FALLBACK_NAME;
    var recipients := Recipients(kind, event, members, actorId);
    if |recipients| == 0 then Reply(200, SentBody(0), [])
    else
      var tokens := RecipientTokens(kind, event.hostId, members, hostProfile);
      var messages := BuildMessages(recipients, tokens, Title(kind), Body(kind, actorName, event.title), eventId);
      Reply(200, SentBody(|messages|), messages)
  }

  /** A valid POST whose event and members were read and whose type is known goes on to notify. */
  lemma HandleReachesNotify(
    httpMethod: string, body: Option<Request>, event: Option<EventRow>, members: Fetch<seq<MemberRow>>,
    actor: Option<ActorProfile>, host: Option<HostProfile>)
    requires httpMethod == "POST" && ValidRequest(body) && event.Some? && members.Fetched?
    requires ParseKind(body.value.kind.value).Some?
    ensures HandleSendPush(httpMethod, body, event, members, actor, host)
      == Notify(ParseKind(body.value.kind.value).value, body.value.eventId.value, body.value.actorId.value,
           event.value, members.value, actor, host)
  {
  }

  /**
   * A request is rejected before any read: a method other than POST gets
   * 405, an unparsable body or a missing or empty field gets 400, whatever
   * the data store would have returned.
   */
  lemma RejectedBeforeLookup(
    httpMethod: string, body: Option<Request>,
    event: Option<EventRow>, members: Fetch<seq<MemberRow>>, actor: Option<ActorProfile>, host: Option<HostProfile>,
    event': Option<EventRow>, members': Fetch<seq<MemberRow>>, actor': Option<ActorProfile>, host': Option<HostProfile>)
    requires httpMethod != "POST" || !ValidRequest(body)
    ensures var reply := HandleSendPush(httpMethod, body, event, members, actor, host);
      && reply == HandleSendPush(httpMethod, body, event', members', actor', host')
      && reply.status == (if httpMethod != "POST" then 405 else 400)
      && reply.batch == []
  {
  }

  /**
   * For every type, known or not, a missing event is reported as 404 and
   * a failed member read as 500, before the type is looked at; neither
   * dispatches anything.
   */
  lemma ReadFailuresDecidedBeforeType(
    body: Option<Request>, event: Option<EventRow>, members: Fetch<seq<MemberRow>>,
    actor: Option<ActorProfile>, host: Option<HostProfile>)
    requires ValidRequest(body)
    ensures event.None? ==>
      HandleSendPush("POST", body, event, members, actor, host) == Reply(404, ErrorBody("Event not found"), [])
    ensures event.Some? && members.FetchFailed? ==>
      HandleSendPush("POST", body, event, members, actor, host) == Reply(500, ErrorBody("Failed to fetch members"), [])
  {
  }

  /**
   * The event and member reads are judged before the type: an unknown
   * type is reported as "Invalid type" exactly when the event exists and
   * its members loaded, and otherwise as 404 or 500.
   */
  lemma UnknownTypeCheckedAfterReads(
    body: Option<Request>, event: Option<EventRow>, members: Fetch<seq<MemberRow>>,
    actor: Option<ActorProfile>, host: Option<HostProfile>)
    requires ValidRequest(body) && ParseKind(body.value.kind.value).None?
    ensures var reply := HandleSendPush("POST", body, event, members, actor, host);
      && (reply == Reply(400, ErrorBody("Invalid type"), []) <==> event.Some? && members.Fetched?)
      && (event.None? ==> reply.status == 404)
      && (event.Some? && members.FetchFailed? ==> reply.status == 500)
  {
  }

  /**
   * A join addresses the host alone: at most one message, to the host's
   * token (a member token if the host has one, else the host profile's),
   * whoever the joiner is and whatever the membership.
   */
  lemma JoinNotifiesOnlyHost(
    body: Option<Request>, event: EventRow, members: seq<MemberRow>,
    actor: Option<ActorProfile>, host: Option<HostProfile>)
    requires ValidRequest(body) && body.value.kind == Some("join")
    ensures var reply := HandleSendPush("POST", body, Some(event), Fetched(members), actor, host);
      var tokens := RecipientTokens(Join, event.hostId, members, host);
      && reply.status == 200
      && (HasToken(tokens, event.hostId) ==> reply.batch == [PushMessage(tokens[event.hostId], JOIN_TITLE,
            ActorName(actor) + " joined " + event.title, DEFAULT_SOUND, body.value.eventId.value)])
      && (!HasToken(tokens, event.hostId) ==> reply.batch == [])
  {
    BuildMessagesSingle(event.hostId, RecipientTokens(Join, event.hostId, members, host), JOIN_TITLE,
      ActorName(actor) + " joined " + event.title, body.value.eventId.value);
  }

  /** For a join whose host already has a member token, the host's profile is never consulted. */
  lemma HostProfileReadOnlyWhenMissing(
    body: Option<Request>, event: EventRow, members: seq<MemberRow>,
    actor: Option<ActorProfile>, host: Option<HostProfile>, host': Option<HostProfile>)
    requires event.hostId in MemberTokens(members)
    ensures HandleSendPush("POST", body, Some(event), Fetched(members), actor, host)
      == HandleSendPush("POST", body, Some(event), Fetched(members), actor, host')
  {
    if ValidRequest(body) && ParseKind(body.value.kind.value).Some? {
      var req := body.value;
      HandleReachesNotify("POST", body, Some(event), Fetched(members), actor, host);
      HandleReachesNotify("POST", body, Some(event), Fetched(members), actor, host');
      NotifyIgnoresHost(ParseKind(req.kind.value).value, req.eventId.value, req.actorId.value, event, members, actor, host, host');
    }
  }

  lemma NotifyIgnoresHost(
    kind: Kind, eventId: string, actorId: string, event: EventRow, members: seq<MemberRow>,
    actor: Option<ActorProfile>, host: Option<HostProfile>, host': Option<HostProfile>)
    requires event.hostId in MemberTokens(members)
    ensures Notify(kind, eventId, actorId, event, members, actor, host) == Notify(kind, eventId, actorId, event, members, actor, host')
  {
    assert RecipientTokens(kind, event.hostId, members, host) == RecipientTokens(kind, event.hostId, members, host');
  }

  /**
   * An update or cancel addresses every member but the actor, in member
   * order, through the member tokens alone; the actor's and host's
   * profiles play no part, and the actor name stays "Someone".
   */
  lemma UpdateCancelNotifyOtherMembers(
    body: Option<Request>, event: EventRow, members: seq<MemberRow>,
    actor: Option<ActorProfile>, host: Option<HostProfile>,
    actor': Option<ActorProfile>, host': Option<HostProfile>)
    requires ValidRequest(body)
    requires body.value.kind == Some("update") || body.value.kind == Some("cancel")
    ensures var kind := if body.value.kind == Some("update") then Update else Cancel;
      var reply := HandleSendPush("POST", body, Some(event), Fetched(members), actor, host);
      && reply == HandleSendPush("POST", body, Some(event), Fetched(members), actor', host')
      && reply.status == 200
      && reply.batch == BuildMessages(Without(UserIds(members), body.value.actorId.value), MemberTokens(members),
           Title(kind), Body(kind, FALLBACK_NAME, event.title), body.value.eventId.value)
  {
    var req := body.value;
    var kind := if req.kind == Some("update") then Update else Cancel;
    assert ParseKind(req.kind.value) == Some(kind);
    HandleReachesNotify("POST", body, Some(event), Fetched(members), actor, host);
    HandleReachesNotify("POST", body, Some(event), Fetched(members), actor', host');
    NotifyOtherMembers(kind, req.eventId.value, req.actorId.value, event, members, actor, host);
    NotifyOtherMembers(kind, req.eventId.value, req.actorId.value, event, members, actor', host');
  }

  lemma NotifyOtherMembers(
    kind: Kind, eventId: string, actorId: string, event: EventRow, members: seq<MemberRow>,
    actor: Option<ActorProfile>, host: Option<HostProfile>)
    requires kind != Join
    ensures Notify(kind, eventId, actorId, event, members, actor, host).batch
      == BuildMessages(Without(UserIds(members), actorId), MemberTokens(members),
           Title(kind), Body(kind, FALLBACK_NAME, event.title), eventId)
  {
  }

  /** Nobody to address, or nobody with a token, means zero sent and nothing dispatched. */
  lemma NothingToSendReportsZero(
    body: Option<Request>, event: EventRow, members: seq<MemberRow>,
    actor: Option<ActorProfile>, host: Option<HostProfile>)
    requires ValidRequest(body) && ParseKind(body.value.kind.value).Some?
    requires var kind := ParseKind(body.value.kind.value).value;
      forall u :: u in Recipients(kind, event, members, body.value.actorId.value) ==>
        !HasToken(RecipientTokens(kind, event.hostId, members, host), u)
    ensures HandleSendPush("POST", body, Some(event), Fetched(members), actor, host) == Reply(200, SentBody(0), [])
  {
  }
}
