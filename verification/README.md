# PopIn notification core, in Dafny

PopIn is a campus event app. Almost all of it is UI over a hosted backend.
Its decision-making lives in two serverless handlers and a handful of pure
helpers, and this project models those and proves properties of them:

- **Action notifier** (`send-push`): after a *join*, *update* or *cancel*, it
  validates the request, picks the recipients (the host for a join, every
  member but the actor otherwise), resolves the actor's display name
  through its fallback chain, builds the user-to-push-token map (falling
  back to the host's own profile for a join), builds one message per
  recipient with a token, and replies with the count. `SendPush.HandleSendPush`
  is a pure function from (HTTP method, parsed body, event row, member
  rows, actor profile, host profile) to (status, JSON body, batch handed
  to the push gateway).
- **Reminder sweep** (`event-reminders`): selects the active, not yet
  reminded events starting between now+12 and now+18 minutes (both ends
  included), sends each member with a token a "Starting soon" message,
  and stamps `reminder_sent_at` whether or not the gateway call threw. An
  event whose member read failed is skipped. `EventReminders.Sweep` is a
  method over the events table, `map<string, EventRecord>`; per-event member
  reads, gateway outcomes, update outcomes and the stamp's clock reading
  are function-valued parameters. Rows are handled in whatever order the
  data store returns them, so the loop picks any remaining row.
- **Helpers**:
  - the capacity size label (`SizeLabel`);
  - the event card's attendee count, spots left, FULL badge, scarcity
    caption and host byline (`EventCard`);
  - the upload path, extension and content type (`Storage`);
  - the root layout's sign-in redirect (`RouteGuard`).

Two shared modules stand in for JavaScript built-ins. `Text` models
`String.prototype.split` with a one-character separator, its first and
last piece, and integer interpolation into template literals; it also
proves the split/join and render/parse round trips. `Wrappers` holds
`Option`. `Push` holds the push message and member-row shapes shared by
both handlers.

Timestamps are integer milliseconds. Capacities and counts are integers.

The join notification's title is modelled exactly as it stands in
supabase/functions/send-push/index.ts:107. There, the party-popper emoji
has been saved as its UTF-8 bytes read as Windows-1252. The title
therefore ends in U+00F0 U+0178 U+017D U+2030 (`SendPush.JOIN_TITLE`), not
in the emoji the surrounding text suggests.

Two replies worth noting:

- An empty sweep replies `{processed: 0}` with no `sent` field
  (`Swept(0, None)`).
- A failed member read in the notifier is a 500 reply.

## Model

| member | source | states |
|---|---|---|
| Push.MemberToken | supabase/functions/event-reminders/index.ts:80-82 | a member yields a token exactly when their profile row exists and its push token is non-empty, and the token yielded is that profile's push token |
| Text.Split | apps/mobile/lib/storage.ts:19 | splitting always yields at least one piece and no piece contains the separator |
| Text.SplitThenJoin | apps/mobile/lib/storage.ts:19 | the pieces glued back with the separator give the original text: splitting loses nothing |
| Text.JoinThenSplit | apps/mobile/lib/storage.ts:19 | separator-free pieces joined and split again come back unchanged |
| Text.SplitAroundSeparator | apps/mobile/lib/storage.ts:20 | the pieces of `a + sep + b` are the pieces of `a` followed by the pieces of `b` |
| Text.FirstPieceIsPrefixBeforeSeparator | apps/mobile/components/EventCard.tsx:79 | `s.split(c)[0]` is the longest `c`-free prefix of `s`: a prefix, without `c`, followed by `c` unless it is all of `s` |
| Text.LastPieceIsSuffixAfterSeparator | apps/mobile/lib/storage.ts:19 | the last piece always exists and is the longest `c`-free suffix, preceded by `c` unless it is all of `s` |
| Text.PiecesAroundSeparator | apps/mobile/lib/storage.ts:20 | in `a + c + b` the first piece is `a` when `a` has no `c`, and the last is `b` when `b` has no `c` |
| Text.NatToDecimal | apps/mobile/lib/storage.ts:20 | a non-negative integer renders as at least one decimal digit with no leading zero |
| Text.IntToDecimal | apps/mobile/lib/storage.ts:20 | an interpolated integer is a non-empty run of digits and "-" (its value is pinned by the round trip below) |
| Text.IntDecimalRoundTrip | apps/mobile/lib/storage.ts:20 | an interpolated integer parses back to the same integer, negative ones included |
| Text.DecimalAvoids | apps/mobile/lib/storage.ts:20 | a rendered integer contains no "." or "/" (nothing but digits and "-") |
| SizeLabel.GetEventSizeLabel | packages/shared/src/types.ts:76-77 | the label is "unlimited" exactly for a null capacity |
| SizeLabel.SizeBands | packages/shared/src/types.ts:69-80 | a capacity up to 6 (zero and negatives too) is small, 7 to 15 is medium, 16 and up is large, each as an if-and-only-if |
| SizeLabel.BandsAreContiguous | packages/shared/src/types.ts:69-71 | the large band starts one past the medium band's end, so the bands leave no gap |
| SizeLabel.LabelMonotonic | packages/shared/src/types.ts:78-80 | a larger capacity never gets a smaller label in the order small < medium < large |
| SizeLabel.DefaultCapacityIsSmall | packages/shared/src/types.ts:67-78 | the default capacity of 6 is labelled small |
| EventCard.AttendeeCount | apps/mobile/components/EventCard.tsx:30 | a missing attendee count reads as zero, a present one as itself |
| EventCard.SpotsLeft | apps/mobile/components/EventCard.tsx:31-32 | no value for unlimited capacity; otherwise never negative and equal to capacity minus attendees unless that is below zero, where it is 0 |
| EventCard.IsFull | apps/mobile/components/EventCard.tsx:31-33 | the FULL badge shows exactly when the capacity is limited and the attendees reach it |
| EventCard.ScarcityCopy | apps/mobile/components/EventCard.tsx:34-42 | the caption is the first-join invitation exactly when nobody attends, limited or not: no count caption and not "1 spot left" ever reads as it |
| EventCard.NoAttendeesInvitesFirstJoin | apps/mobile/components/EventCard.tsx:34-39 | with no attendees the caption is the first-join invitation, whatever the capacity, even on a full zero-capacity card |
| EventCard.UnlimitedShowsJoined | apps/mobile/components/EventCard.tsx:34-37 | an unlimited event with attendees shows "<n> joined", and the number reads back as the attendee count |
| EventCard.OneSpotLeftExactly | apps/mobile/components/EventCard.tsx:38-42 | a limited event with attendees shows "1 spot left" if and only if exactly one place remains |
| EventCard.LimitedShowsSpotsLeft | apps/mobile/components/EventCard.tsx:38-42 | otherwise it shows "<spots> spots left", with the number reading back as the places left, and "0 spots left" on a full card |
| EventCard.HostLabel | apps/mobile/components/EventCard.tsx:79 | a non-empty display name is the byline |
| EventCard.HostLabelFallsBackToLocalPart | apps/mobile/components/EventCard.tsx:79 | without a display name the byline is the email's longest "@"-free prefix |
| Storage.PlanAvatarUpload | apps/mobile/lib/storage.ts:15-26 | an avatar goes to the avatars bucket with overwriting allowed and content type "image/" + extension |
| Storage.PlanEventPhotoUpload | apps/mobile/lib/storage.ts:38-49 | an event photo goes to the event-photos bucket without overwriting and with content type "image/" + extension |
| Storage.Extension | apps/mobile/lib/storage.ts:19 | the extension is the URI's longest "."-free suffix, preceded by "." unless it is the whole URI |
| Storage.JpgFallbackUnreachable | apps/mobile/lib/storage.ts:42 | the "jpg" default is never used: a URI without "." is its own extension, even the empty URI |
| Storage.ObjectPath | apps/mobile/lib/storage.ts:20 | the path's text after its last "." is the extension when that has no ".", and its first "/"-piece is the user id when the id has no "/" |
| Storage.UploadsDifferOnlyInBucketAndUpsert | apps/mobile/lib/storage.ts:36-49 | both uploads use the same path and content type and differ only in bucket and upsert; the full location is `{bucket}/{userId}/{timestamp}.{ext}` |
| RouteGuard.Redirect | apps/mobile/app/_layout.tsx:27-37 | no redirect while loading; signed out in the app group goes to "/", signed in outside it goes to "/(app)/feed", each as an if-and-only-if, and no redirect when session and area agree |
| RouteGuard.InAppDependsOnFirstSegment | apps/mobile/app/_layout.tsx:30 | two routes with the same first segment get the same redirect decision |
| RouteGuard.SignInRouteSegments | apps/mobile/app/_layout.tsx:33 | the sign-in route "/" has no segments, so it is outside the app group |
| RouteGuard.FeedRouteSegments | apps/mobile/app/_layout.tsx:35 | the feed route's segments are "(app)" and "feed", so it is inside the app group |
| RouteGuard.RedirectSettles | apps/mobile/app/_layout.tsx:27-37 | arriving at the route the guard redirected to asks for no further redirect |
| SendPush.ParseKind | supabase/functions/send-push/index.ts:103-131 | the type selects join, update or cancel exactly for "join", "update" and "cancel" |
| SendPush.ActorName | supabase/functions/send-push/index.ts:85-96 | the actor name is never empty |
| SendPush.ActorNameFallbackChain | supabase/functions/send-push/index.ts:85-96 | a non-empty display name wins; else the email's text before its first "@" if non-empty; else "Someone", also when no profile was found |
| SendPush.Title | supabase/functions/send-push/index.ts:103-127 | the titles are "Someone joined your event" followed by the mis-encoded party popper, "Event updated" and "Event canceled" |
| SendPush.TitleIdentifiesKind | supabase/functions/send-push/index.ts:103-127 | the join, update and cancel titles are pairwise different, so the title tells the action |
| SendPush.Body | supabase/functions/send-push/index.ts:103-127 | a join body starts with the actor's name and ends with the event title; an update or cancel body starts with the event title and says more after it |
| SendPush.ValidRequest | supabase/functions/send-push/index.ts:49 | a request passes when it parsed and `type`, `event_id` and `actor_id` are all present and non-empty |
| SendPush.UserIds | supabase/functions/send-push/index.ts:113-114 | the ids are the members' user ids, position by position |
| SendPush.Without | supabase/functions/send-push/index.ts:113-115 | the actor is dropped and every other id kept; the length falls by the actor's number of occurrences |
| SendPush.WithoutConcat | supabase/functions/send-push/index.ts:122-124 | filtering keeps member order: it distributes over concatenation |
| SendPush.Recipients | supabase/functions/send-push/index.ts:103-127 | a join addresses the host alone; update and cancel address every member but the actor |
| SendPush.MemberTokens | supabase/functions/send-push/index.ts:139-145 | a user is in the map exactly when some row of theirs has a non-empty token, and their entry is one of those tokens |
| SendPush.RecipientTokens | supabase/functions/send-push/index.ts:138-157 | every member token is kept as is and no user but the host is added; the host is added exactly for a join whose host has no member token and whose host profile has a non-empty token, and then with that token |
| SendPush.BuildMessages | supabase/functions/send-push/index.ts:159-174 | every message carries the shared title, body, sound and event id and goes to a recipient's token; all recipients with tokens gives one message each, none gives no message |
| SendPush.BuildMessagesConcat | supabase/functions/send-push/index.ts:161-174 | messages follow recipient order, and a tokenless recipient does not block the others |
| SendPush.BuildMessagesSingle | supabase/functions/send-push/index.ts:162-173 | one recipient yields one message to their token, or none without a token |
| SendPush.HandleSendPush | supabase/functions/send-push/index.ts:34-193 | the reply is 200 exactly when it carries a sent count, the count equals the number of messages dispatched, an error reply dispatches nothing, and the status is one of 200, 400, 404, 405, 500 |
| SendPush.Notify | supabase/functions/send-push/index.ts:133-192 | once the request passed every check, the reply is 200 with sent equal to the number of messages built |
| SendPush.HandleReachesNotify | supabase/functions/send-push/index.ts:36-131 | a POST with all fields present, an event, loaded members and a known type goes on to notify with those values |
| SendPush.RejectedBeforeLookup | supabase/functions/send-push/index.ts:36-54 | a non-POST gets 405 and a bad or incomplete body 400, whatever the data store holds, with nothing dispatched |
| SendPush.ReadFailuresDecidedBeforeType | supabase/functions/send-push/index.ts:60-82 | a valid request of any type whose event is missing gets 404 "Event not found", and one whose member read failed gets 500 "Failed to fetch members", with nothing dispatched |
| SendPush.UnknownTypeCheckedAfterReads | supabase/functions/send-push/index.ts:62-130 | an unknown type gets 400 "Invalid type" exactly when the event exists and the members loaded; otherwise 404 or 500 |
| SendPush.JoinNotifiesOnlyHost | supabase/functions/send-push/index.ts:104-108 | a join sends at most one message, to the host's token, titled as joined and naming the actor, whoever joined |
| SendPush.NotifyIgnoresHost | supabase/functions/send-push/index.ts:147-157 | once the host has a member token, notifying does not depend on the host profile |
| SendPush.HostProfileReadOnlyWhenMissing | supabase/functions/send-push/index.ts:147-157 | the whole reply ignores the host profile when the host already has a member token |
| SendPush.NotifyOtherMembers | supabase/functions/send-push/index.ts:111-127 | update and cancel build their messages from the members minus the actor and the member tokens alone |
| SendPush.UpdateCancelNotifyOtherMembers | supabase/functions/send-push/index.ts:111-127 | update and cancel reply 200, independently of the actor and host profiles, with messages for every member but the actor, and the actor named "Someone" |
| SendPush.NothingToSendReportsZero | supabase/functions/send-push/index.ts:133-178 | no recipients, or no recipient with a token, gives 200 with sent 0 and nothing dispatched |
| SendPushScenarios.CancelByHostScenario | supabase/functions/send-push/index.ts:120-192 | a host cancelling with two token-holding guests and no token of their own sends exactly two "Event canceled" messages and reports 2 |
| SendPushScenarios.UnknownTypeScenario | supabase/functions/send-push/index.ts:129-130 | type "explode" is refused with 400 "Invalid type" and nothing dispatched |
| EventReminders.Due | supabase/functions/event-reminders/index.ts:47-50 | the query's filter: active, no reminder sent yet, starting within [now+12 min, now+18 min], both ends included |
| EventReminders.DueIds | supabase/functions/event-reminders/index.ts:40-50 | a row is selected if and only if it is in the table and passes the filter: active, unreminded and starting within [now+12 min, now+18 min] |
| EventReminders.WindowBoundsInclusive | supabase/functions/event-reminders/index.ts:41-49 | exactly 12 and exactly 18 minutes ahead are due; one millisecond outside either end is not |
| EventReminders.ReminderMessages | supabase/functions/event-reminders/index.ts:79-91 | each message has the "Starting soon" title, "<title> starts in 15 minutes" body, default sound and the event id, and goes to a member's token; all members with tokens gives one each, none gives nothing |
| EventReminders.ReminderMessagesConcat | supabase/functions/event-reminders/index.ts:80-91 | messages follow member order, and a tokenless member blocks nobody |
| EventReminders.ReminderMessagesSingle | supabase/functions/event-reminders/index.ts:81-90 | one member yields one message to their token, or none |
| EventReminders.AfterSweep | supabase/functions/event-reminders/index.ts:103-111 | the sweep keeps every row and changes nothing but `reminder_sent_at` |
| EventReminders.BatchFor | supabase/functions/event-reminders/index.ts:73-93 | an event hands the gateway a batch exactly when its members loaded and it has at least one message, and the batch is its reminder messages |
| EventReminders.Batches | supabase/functions/event-reminders/index.ts:66-95 | exactly the selected events whose members loaded and that have messages are dispatched, each with its own messages |
| EventReminders.DueEventWithTokenIsDispatched | supabase/functions/event-reminders/index.ts:73-93 | a due event whose members loaded and one of whose members has a token is dispatched, with its reminder messages as the batch |
| EventReminders.SentOverRemove | supabase/functions/event-reminders/index.ts:64-101 | the sent total does not depend on row order: it splits off any one event's contribution |
| EventReminders.NothingSentWhenDispatchFails | supabase/functions/event-reminders/index.ts:94-100 | when every gateway call throws, sent is 0 |
| EventReminders.AllSentWhenDispatchSucceeds | supabase/functions/event-reminders/index.ts:93-97 | when no gateway call throws, sent counts every message built |
| EventReminders.Sweep | supabase/functions/event-reminders/index.ts:28-121 | 405 for methods other than GET and POST and 500 on a failed query, both without writes; an empty selection gives processed 0 and no writes; otherwise processed is the number selected, sent the total of batches whose dispatch did not throw, the table is the stamped table and the batches those built |
| EventReminders.HandleEvent | supabase/functions/event-reminders/index.ts:66-111 | handling one more row extends the running table, batches and sent total by exactly that row's stamp, batch and contribution |
| EventReminders.HandleDueEvents | supabase/functions/event-reminders/index.ts:64-112 | after the loop every selected row is handled: sent is the total over them, and the table and batches are those of the whole selection |
| EventReminders.OnlyStampedRowsChange | supabase/functions/event-reminders/index.ts:103-107 | a row the sweep does not stamp is untouched; a stamped row differs only in `reminder_sent_at`, now set |
| EventReminders.StampedRegardlessOfDispatch | supabase/functions/event-reminders/index.ts:93-107 | a due event whose members loaded and whose update succeeded is stamped, whatever the gateway did |
| EventReminders.FailedFetchLeavesEventDue | supabase/functions/event-reminders/index.ts:73-76 | a due event whose member read failed is not stamped, dispatches nothing, and stays due |
| EventReminders.ReminderNeverRewritten | supabase/functions/event-reminders/index.ts:50 | an event already reminded is never selected nor touched again |
| EventReminders.SweepIsIdempotent | supabase/functions/event-reminders/index.ts:44-107 | when every member read and stamp succeeds, a second sweep at the same time selects nothing |
| EventReminders.EventWithoutMembersScenario | supabase/functions/event-reminders/index.ts:79-107 | a lone due event with no members is processed, sends nothing, dispatches nothing, and is still stamped |

## Left out

- The push gateway call (`sendExpoPushNotifications`) is not modelled. In the notifier its failure is caught and cannot change the reply; in the sweep it is the `dispatchOk` parameter.
- `Deno.serve`, `createClient`, environment reads, JSON serialisation of replies and `console` logging are I/O and are not modelled.
- JSON parsing is reduced to its outcome: a body that does not parse is `None`, and `type`, `event_id` and `actor_id` are optional strings. Other JSON values are not modelled. A body that parses to `null` makes the destructuring at supabase/functions/send-push/index.ts:47 throw. A number, string, boolean or array body has none of the fields and gets the 400 at lines 49-53. A truthy field of another type passes line 49: a non-string `type` ends in 400 "Invalid type" at lines 129-130 after the reads, and a numeric `actor_id` never equals a user id at line 115, so the actor is not filtered out.
- Data-store reads are inputs. An event read that errs or finds no row is `None`. A member read that reports an error is `FetchFailed`. A member read with no error but null data is the empty list, as `members || []` treats it.
- The sweep's query outcome is a flag. A successful query with null data is modelled as the empty selection, which the handler treats the same way.
- The stamp's clock reading (`new Date()` at update time) is the `markTime` parameter. The sweep's `now` is an input.
- Times are integer milliseconds. The ISO-8601 strings the source compares in the database are assumed to order the same way.
- Concurrency is not modelled: overlapping sweeps and a crash between dispatch and stamp. Each invocation runs alone.
- Capacities and attendee counts are integers. Fractional values and NaN are not modelled.
- Numbers are JavaScript doubles: integers above 2^53 are not exact, and from 10^21 on they interpolate in exponent form (`1e+21`). The model's integers are unbounded and always render as plain digits. That is enough for the counts, capacities and `Date.now()` values the app produces.
- EventCard.HostLabel: the card shows no byline when the event has no host row. The model takes the host's display name and email as given.
- RouteGuard.RouteSegments is an assumption about the router rather than code of the app: the segments it reports for a route are that route's non-empty "/"-separated pieces, route groups included. It is relied on only for the two literal redirect targets, "/" and "/(app)/feed", by RouteGuard.RedirectSettles; other routes, dynamic segments included, are not modelled.
- The session listener and loading state in the root layout are not modelled. Loading and session presence are inputs.
- Date and time formatting on the card (`toLocale*`), styling and the other screens are UI and are not modelled.
- apps/mobile/app/index.tsx (sign-in screen), apps/mobile/lib/notifications.ts (device token registration) and apps/mobile/lib/posthog.ts (analytics) are not part of this model. They are platform and SDK calls.
