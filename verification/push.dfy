/**
 * What both notification handlers share: the push message handed to the
 * push gateway and the member rows they read from the data store
 * (`event_members` joined with the member's `profiles` row).
 */
module Push {

  import opened Wrappers

  /** One gateway message: `to`, `title`, `body`, `sound` and the `data.event_id` deep-link payload. */
  datatype PushMessage = PushMessage(to: string, title: string, body: string, sound: string, eventId: string)

  const DEFAULT_SOUND: string := "default"

  /** The outcome of one read from the data store: the rows, or an error object. */
  datatype Fetch<T> = Fetched(value: T) | FetchFailed

  /** JavaScript truthiness of an optional string: present and non-empty. */
  predicate Truthy(s: Option<string>) {
    s.Some? && s.value != ""
  }

  /** The joined profile columns; `pushToken` is `expo_push_token`. */
  datatype MemberProfile = MemberProfile(displayName: Option<string>, pushToken: Option<string>)

  /** One `event_members` row with its profile, which may be missing. */
  datatype MemberRow = MemberRow(userId: string, profile: Option<MemberProfile>)

  /** `member.profiles?.expo_push_token`, kept only when truthy. */
  function MemberToken(member: MemberRow): (token: Option<string>)
    ensures token.Some? ==> token.value != ""
    ensures token.Some? <==> member.profile.Some? && Truthy(member.profile.value.pushToken)
    ensures token.Some? ==> token == member.profile.value.pushToken
  {
    match member.profile
    case None => None
    case Some(p) => if Truthy(p.pushToken) then p.pushToken else None
  }
}
