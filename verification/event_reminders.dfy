/**
 * The reminder sweep (supabase/functions/event-reminders/index.ts): finds
 * active events starting 12 to 18 minutes from now that have not been
 * reminded, sends each member with a push token a "starting soon"
 * message, and stamps `reminder_sent_at` on each event it handled.
 *
 * The events table is a map from event id to row, and times are integer
 * milliseconds. Every per-event outcome the handler cannot decide itself
 * is an input: the member read, whether the gateway call threw, whether
 * the stamping update succeeded, and the clock reading taken for the stamp.
 */
module EventReminders {

  import opened Wrappers
  import opened Push

  datatype Status = Active | Canceled

  /** The event columns the sweep reads or writes. */
  datatype EventRecord = EventRecord(title: string, status: Status, startTime: int, reminderSentAt: Option<int>)

  type Table = map<string, EventRecord>

  const MINUTE_MS: int := 60 * 1000
  const WINDOW_START_MS: int := 12 * MINUTE_MS
  const WINDOW_END_MS: int := 18 * MINUTE_MS
  const REMINDER_TITLE: string := "Starting soon \U{23F0}"

  /** The query's filter: active, not yet reminded, starting within [now+12 min, now+18 min]. */
  predicate Due(event: EventRecord, now: int) {
    && event.status == Active
    && event.reminderSentAt.None?
    && now + WINDOW_START_MS <= event.startTime <= now + WINDOW_END_MS
  }

  /** The ids of the rows the query returns. */
  function DueIds(table: Table, now: int): (ids: set<string>)
    ensures ids <= table.Keys
    ensures forall id :: id in ids <==> id in table && Due(table[id], now)
  {
    set id | id in table && Due(table[id], now)
  }

  function ReminderBody(title: string): string {
    title + " starts in 15 minutes"
  }

  /**
   * One message per member whose profile has a non-empty token, in member
   * order, each with the fixed title, the event's body and its id.
   */
  function ReminderMessages(eventId: string, title: string, members: seq<MemberRow>): (messages: seq<PushMessage>)
    ensures |messages| <= |members|
    ensures forall m :: m in messages ==>
      && m.title == REMINDER_TITLE && m.body == ReminderBody(title) && m.sound == DEFAULT_SOUND
      && m.eventId == eventId && m.to != ""
      && exists member :: member in members && MemberToken(member) == Some(m.to)
    ensures (forall member :: member in members ==> MemberToken(member).Some?) ==> |messages| == |members|
    ensures messages == [] <==> forall member :: member in members ==> MemberToken(member).None?
  {
    if |members| == 0 then []
    else
      assert members == [members[0]] + members[1..];
      var rest := ReminderMessages(eventId, title, members[1..]);
      match MemberToken(members[0])
      case Some(token) => [PushMessage(token, REMINDER_TITLE, ReminderBody(title), DEFAULT_SOUND, eventId)] + rest
      case None => rest
  }

  /** Building distributes over concatenation: member order is kept and a tokenless member blocks nobody. */
  lemma {:induction false} ReminderMessagesConcat(eventId: string, title: string, a: seq<MemberRow>, b: seq<MemberRow>)
    ensures ReminderMessages(eventId, title, a + b) == ReminderMessages(eventId, title, a) + ReminderMessages(eventId, title, b)
  {
    if |a| > 0 {
      assert (a + b)[1..] == a[1..] + b;
      ReminderMessagesConcat(eventId, title, a[1..], b);
    } else {
      assert a + b == b;
    }
  }

  /** A single member yields one message to their token, or none. */
  lemma ReminderMessagesSingle(eventId: string, title: string, member: MemberRow)
    ensures ReminderMessages(eventId, title, [member])
      == match MemberToken(member)
         case Some(token) => [PushMessage(token, REMINDER_TITLE, ReminderBody(title), DEFAULT_SOUND, eventId)]
         case None => []
  {
    assert [member][1..] == [];
  }

  /** Whether the sweep stamps an event: it is due, its members loaded, and the update succeeded. */
  predicate Stamped(table: Table, now: int, fetch: string -> Fetch<seq<MemberRow>>, updateOk: string -> bool, id: string) {
    id in table && Due(table[id], now) && fetch(id).Fetched? && updateOk(id)
  }

  /** The events table after a sweep: stamped events get `reminder_sent_at`, every other row is untouched. */
  function AfterSweep(table: Table, now: int, fetch: string -> Fetch<seq<MemberRow>>, updateOk: string -> bool, markTime: string -> int)
    : (table': Table)
    ensures table'.Keys == table.Keys
    ensures forall id :: id in table ==> table'[id].(reminderSentAt := table[id].reminderSentAt) == table[id]
  {
    map id | id in table ::
      if Stamped(table, now, fetch, updateOk, id) then table[id].(reminderSentAt := Some(markTime(id))) else table[id]
  }

  /** The batch an event hands to the gateway: its messages, if its members loaded and it has any. */
  function BatchFor(table: Table, fetch: string -> Fetch<seq<MemberRow>>, id: string): (batch: Option<seq<PushMessage>>)
    requires id in table
    ensures batch.Some? <==> fetch(id).Fetched? && ReminderMessages(id, table[id].title, fetch(id).value) != []
    ensures batch.Some? ==> batch.value == ReminderMessages(id, table[id].title, fetch(id).value)
  {
    match fetch(id)
    case FetchFailed => None
    case Fetched(members) =>
      var messages := ReminderMessages(id, table[id].title, members);
      if |messages| > 0 then Some(messages) else None
  }

  /** The batches handed to the gateway: one per due event whose members loaded and that has a message. */
  function Batches(table: Table, now: int, fetch: string -> Fetch<seq<MemberRow>>): (batches: map<string, seq<PushMessage>>)
    ensures batches.Keys <= DueIds(table, now)
    ensures forall id :: id in batches <==> id in DueIds(table, now) && BatchFor(table, fetch, id).Some?
    ensures forall id :: id in batches ==> batches[id] == BatchFor(table, fetch, id).value
  {
    map id | id in DueIds(table, now) && BatchFor(table, fetch, id).Some? :: BatchFor(table, fetch, id).value
  }

  /**
   * A due event whose members loaded and that has a member with a token is
   * dispatched, and its batch is exactly its reminder messages.
   */
  lemma DueEventWithTokenIsDispatched(
    table: Table, now: int, fetch: string -> Fetch<seq<MemberRow>>, id: string, member: MemberRow)
    requires id in table && Due(table[id], now) && fetch(id).Fetched?
    requires member in fetch(id).value && MemberToken(member).Some?
    ensures id in Batches(table, now, fetch)
    ensures Batches(table, now, fetch)[id] == ReminderMessages(id, table[id].title, fetch(id).value)
  {
  }

  /** What one event adds to `sent`: its batch size if the gateway call did not throw. */
  function Contribution(batches: map<string, seq<PushMessage>>, dispatchOk: string -> bool, id: string): nat {
    if id in batches && dispatchOk(id) then |batches[id]| else 0
  }

  /** The `sent` total over a set of events. */
  ghost function SentOver(ids: set<string>, batches: map<string, seq<PushMessage>>, dispatchOk: string -> bool): nat
    decreases ids
  {
    if ids == {} then 0
    else
      var id :| id in ids;
      Contribution(batches, dispatchOk, id) + SentOver(ids - {id}, batches, dispatchOk)
  }

  /** The total may be taken apart at any event, whichever order the rows came in. */
  lemma {:induction false} SentOverRemove(ids: set<string>, id: string, batches: map<string, seq<PushMessage>>, dispatchOk: string -> bool)
    requires id in ids
    ensures SentOver(ids, batches, dispatchOk) == Contribution(batches, dispatchOk, id) + SentOver(ids - {id}, batches, dispatchOk)
    decreases ids
  {
    var y :| y in ids && SentOver(ids, batches, dispatchOk)
      == Contribution(batches, dispatchOk, y) + SentOver(ids - {y}, batches, dispatchOk);
    if y != id {
      SentOverRemove(ids - {y}, id, batches, dispatchOk);
      SentOverRemove(ids - {id}, y, batches, dispatchOk);
      assert ids - {y} - {id} == ids - {id} - {y};
    }
  }

  /** When every gateway call throws, nothing counts as sent. */
  lemma {:induction false} NothingSentWhenDispatchFails(ids: set<string>, batches: map<string, seq<PushMessage>>, dispatchOk: string -> bool)
    requires forall id :: id in ids ==> !dispatchOk(id)
    ensures SentOver(ids, batches, dispatchOk) == 0
    decreases ids
  {
    if ids != {} {
      var id :| id in ids;
      SentOverRemove(ids, id, batches, dispatchOk);
      NothingSentWhenDispatchFails(ids - {id}, batches, dispatchOk);
    }
  }

  /** When every gateway call succeeds, `sent` is the number of messages built. */
  lemma {:induction false} AllSentWhenDispatchSucceeds(ids: set<string>, batches: map<string, seq<PushMessage>>, dispatchOk: string -> bool)
    requires forall id :: id in ids ==> dispatchOk(id)
    ensures SentOver(ids, batches, dispatchOk) == SentOver(ids, batches, _ => true)
    decreases ids
  {
    if ids != {} {
      var id :| id in ids;
      SentOverRemove(ids, id, batches, dispatchOk);
      SentOverRemove(ids, id, batches, _ => true);
      AllSentWhenDispatchSucceeds(ids - {id}, batches, dispatchOk);
    }
  }

  datatype SweepReply = SweepFailed(status: int, error: string) | Swept(processed: nat, sent: Option<nat>)

  predicate AllowedMethod(httpMethod: string) {
    httpMethod == "GET" || httpMethod == "POST"
  }

  /**
   * One invocation. The rows are handled in whatever order the data store
   * returns them, modelled by picking any remaining row. Returns the
   * reply, the events table afterwards, and the batch handed to the
   * gateway for each event that had one.
   */
  method Sweep(
    httpMethod: string, table: Table, now: int, queryOk: bool,
    fetch: string -> Fetch<seq<MemberRow>>, dispatchOk: string -> bool,
    updateOk: string -> bool, markTime: string -> int)
    returns (reply: SweepReply, table': Table, dispatched: map<string, seq<PushMessage>>)
    ensures !AllowedMethod(httpMethod) ==>
      reply == SweepFailed(405, "Method not allowed") && table' == table && dispatched == map[]
    ensures AllowedMethod(httpMethod) && !queryOk ==>
      reply == SweepFailed(500, "Failed to fetch events") && table' == table && dispatched == map[]
    ensures AllowedMethod(httpMethod) && queryOk && DueIds(table, now) == {} ==>
      reply == Swept(0, None) && table' == table && dispatched == map[]
    ensures AllowedMethod(httpMethod) && queryOk && DueIds(table, now) != {} ==>
      && reply == Swept(|DueIds(table, now)|, Some(SentOver(DueIds(table, now), Batches(table, now, fetch), dispatchOk)))
      && table' == AfterSweep(table, now, fetch, updateOk, markTime)
      && dispatched == Batches(table, now, fetch)
  {
    if !AllowedMethod(httpMethod) {
      return SweepFailed(405, "Method not allowed"), table, map[];
    }
    if !queryOk {
      return SweepFailed(500, "Failed to fetch events"), table, map[];
    }
    var due := DueIds(table, now);
    if due == {} {
      return Swept(0, None), table, map[];
    }
    var sent;
    sent, table', dispatched := HandleDueEvents(table, now, fetch, dispatchOk, updateOk, markTime);
    AllDueHandled(table, now, fetch, updateOk, markTime);
    reply := Swept(|due|, Some(sent));
  }

  /** The events table once the rows in `done` have been handled. */
  function StampedSoFar(
    table: Table, now: int, fetch: string -> Fetch<seq<MemberRow>>, updateOk: string -> bool, markTime: string -> int,
    done: set<string>): Table
  {
    map id | id in table ::
      if id in done && Stamped(table, now, fetch, updateOk, id) then table[id].(reminderSentAt := Some(markTime(id))) else table[id]
  }

  /** The batches dispatched once the rows in `done` have been handled. */
  function DispatchedSoFar(batches: map<string, seq<PushMessage>>, done: set<string>): map<string, seq<PushMessage>> {
    map id | id in done && id in batches :: batches[id]
  }

  lemma StampStep(
    table: Table, now: int, fetch: string -> Fetch<seq<MemberRow>>, updateOk: string -> bool, markTime: string -> int,
    done: set<string>, id: string)
    requires id in table && Due(table[id], now)
    ensures var before := StampedSoFar(table, now, fetch, updateOk, markTime, done);
      StampedSoFar(table, now, fetch, updateOk, markTime, done + {id})
      == if fetch(id).Fetched? && updateOk(id) then before[id := table[id].(reminderSentAt := Some(markTime(id)))] else before
  {
  }

  lemma DispatchStep(batches: map<string, seq<PushMessage>>, done: set<string>, id: string)
    ensures DispatchedSoFar(batches, done + {id})
      == if id in batches then DispatchedSoFar(batches, done)[id := batches[id]] else DispatchedSoFar(batches, done)
  {
  }

  /** Handling every due row gives the whole sweep's table and batches. */
  lemma AllDueHandled(
    table: Table, now: int, fetch: string -> Fetch<seq<MemberRow>>, updateOk: string -> bool, markTime: string -> int)
    ensures StampedSoFar(table, now, fetch, updateOk, markTime, DueIds(table, now)) == AfterSweep(table, now, fetch, updateOk, markTime)
    ensures DispatchedSoFar(Batches(table, now, fetch), DueIds(table, now)) == Batches(table, now, fetch)
  {
  }

  /**
   * One due row: build its batch and hand it to the gateway if it has one,
   * count the batch if the call did not throw, and stamp the event if its
   * members loaded and the update succeeded.
   */
  method HandleEvent(
    table: Table, now: int,
    fetch: string -> Fetch<seq<MemberRow>>, dispatchOk: string -> bool,
    updateOk: string -> bool, markTime: string -> int,
    ghost done: set<string>, id: string,
    sent: nat, table': Table, dispatched: map<string, seq<PushMessage>>)
    returns (sent2: nat, table2: Table, dispatched2: map<string, seq<PushMessage>>)
    requires id in DueIds(table, now) && id !in done
    requires table' == StampedSoFar(table, now, fetch, updateOk, markTime, done)
    requires dispatched == DispatchedSoFar(Batches(table, now, fetch), done)
    requires sent == SentOver(done, Batches(table, now, fetch), dispatchOk)
    ensures table2 == StampedSoFar(table, now, fetch, updateOk, markTime, done + {id})
    ensures dispatched2 == DispatchedSoFar(Batches(table, now, fetch), done + {id})
    ensures sent2 == SentOver(done + {id}, Batches(table, now, fetch), dispatchOk)
  {
    ghost var batches := Batches(table, now, fetch);
    var batch := BatchFor(table, fetch, id);
    assert batch.Some? <==> id in batches;
    sent2, table2, dispatched2 := sent, table', dispatched;
    if batch.Some? {
      dispatched2 := dispatched2[id := batch.value];
      if dispatchOk(id) {
        sent2 := sent2 + |batch.value|;
      }
    }
    if fetch(id).Fetched? && updateOk(id) {
      table2 := table2[id := table[id].(reminderSentAt := Some(markTime(id)))];
    }
    StampStep(table, now, fetch, updateOk, markTime, done, id);
    DispatchStep(batches, done, id);
    SentOverRemove(done + {id}, id, batches, dispatchOk);
    assert done + {id} - {id} == done;
  }

  /** The loop over the due rows, in whatever order the data store returns them. */
  method HandleDueEvents(
    table: Table, now: int,
    fetch: string -> Fetch<seq<MemberRow>>, dispatchOk: string -> bool,
    updateOk: string -> bool, markTime: string -> int)
    returns (sent: nat, table': Table, dispatched: map<string, seq<PushMessage>>)
    ensures sent == SentOver(DueIds(table, now), Batches(table, now, fetch), dispatchOk)
    ensures table' == StampedSoFar(table, now, fetch, updateOk, markTime, DueIds(table, now))
    ensures dispatched == DispatchedSoFar(Batches(table, now, fetch), DueIds(table, now))
  {
    var due := DueIds(table, now);
    var todo := due;
    sent := 0;
    table' := table;
    dispatched := map[];
    assert due - todo == {} by {
      assert todo == due;
    }
    assert table' == StampedSoFar(table, now, fetch, updateOk, markTime, {});
    assert dispatched == DispatchedSoFar(Batches(table, now, fetch), {});
    while todo != {}
      invariant todo <= due
      invariant table' == StampedSoFar(table, now, fetch, updateOk, markTime, due - todo)
      invariant dispatched == DispatchedSoFar(Batches(table, now, fetch), due - todo)
      invariant sent == SentOver(due - todo, Batches(table, now, fetch), dispatchOk)
      decreases todo
    {
      var id :| id in todo;
      sent, table', dispatched :=
        HandleEvent(table, now, fetch, dispatchOk, updateOk, markTime, due - todo, id, sent, table', dispatched);
      TakeOne(due, todo, id);
      todo := todo - {id};
    }
    assert due - todo == due;
  }

  /** Moving one row from the rows left to the rows handled. */
  lemma TakeOne<T>(due: set<T>, todo: set<T>, id: T)
    requires todo <= due && id in todo
    ensures todo - {id} < todo
    ensures due - (todo - {id}) == (due - todo) + {id}
  {
  }

  /** The window is closed at both ends: exactly 12 and exactly 18 minutes ahead are due, a millisecond outside is not. */
  lemma WindowBoundsInclusive(title: string, now: int)
    ensures Due(EventRecord(title, Active, now + 12 * 60 * 1000, None), now)
    ensures Due(EventRecord(title, Active, now + 18 * 60 * 1000, None), now)
    ensures !Due(EventRecord(title, Active, now + 12 * 60 * 1000 - 1, None), now)
    ensures !Due(EventRecord(title, Active, now + 18 * 60 * 1000 + 1, None), now)
  {
  }

  /**
   * Nothing else changes: a row the sweep does not stamp is untouched, and
   * a stamped row differs only in `reminder_sent_at`, now set.
   */
  lemma OnlyStampedRowsChange(
    table: Table, now: int, fetch: string -> Fetch<seq<MemberRow>>, updateOk: string -> bool, markTime: string -> int, id: string)
    requires id in table
    ensures var after := AfterSweep(table, now, fetch, updateOk, markTime);
      && (!Stamped(table, now, fetch, updateOk, id) ==> after[id] == table[id])
      && (Stamped(table, now, fetch, updateOk, id) ==>
            after[id] == table[id].(reminderSentAt := Some(markTime(id))))
  {
  }

  /**
   * A due event whose members loaded is stamped whatever happened at the
   * gateway and however many members or tokens it has (stamping does not
   * depend on the dispatch outcome or on the messages at all).
   */
  lemma StampedRegardlessOfDispatch(
    table: Table, now: int, fetch: string -> Fetch<seq<MemberRow>>, updateOk: string -> bool, markTime: string -> int, id: string)
    requires id in table && Due(table[id], now) && fetch(id).Fetched? && updateOk(id)
    ensures AfterSweep(table, now, fetch, updateOk, markTime)[id].reminderSentAt == Some(markTime(id))
  {
  }

  /** A due event whose member read failed is skipped: left unstamped and due again at the same time. */
  lemma FailedFetchLeavesEventDue(
    table: Table, now: int, fetch: string -> Fetch<seq<MemberRow>>, updateOk: string -> bool, markTime: string -> int, id: string)
    requires id in table && Due(table[id], now) && fetch(id).FetchFailed?
    ensures AfterSweep(table, now, fetch, updateOk, markTime)[id] == table[id]
    ensures id in DueIds(AfterSweep(table, now, fetch, updateOk, markTime), now)
    ensures id !in Batches(table, now, fetch)
  {
  }

  /** `reminder_sent_at` is written at most once: a reminded event is never touched again. */
  lemma ReminderNeverRewritten(
    table: Table, now: int, fetch: string -> Fetch<seq<MemberRow>>, updateOk: string -> bool, markTime: string -> int, id: string)
    requires id in table && table[id].reminderSentAt.Some?
    ensures AfterSweep(table, now, fetch, updateOk, markTime)[id] == table[id]
    ensures id !in DueIds(table, now)
  {
  }

  /**
   * Idempotence: when every member read and every stamp succeeds, a second
   * sweep at the same time finds nothing due.
   */
  lemma SweepIsIdempotent(
    table: Table, now: int, fetch: string -> Fetch<seq<MemberRow>>, updateOk: string -> bool, markTime: string -> int)
    requires forall id :: id in DueIds(table, now) ==> fetch(id).Fetched? && updateOk(id)
    ensures DueIds(AfterSweep(table, now, fetch, updateOk, markTime), now) == {}
  {
    var after := AfterSweep(table, now, fetch, updateOk, markTime);
    forall id | id in after
      ensures !Due(after[id], now)
    {
      if Due(table[id], now) {
        assert id in DueIds(table, now);
      }
    }
  }

  /**
   * A lone due event with no members: the sweep processes one event, sends
   * nothing, dispatches nothing, and still stamps it.
   */
  lemma EventWithoutMembersScenario(
    id: string, event: EventRecord, now: int, dispatchOk: string -> bool,
    fetch: string -> Fetch<seq<MemberRow>>, updateOk: string -> bool, markTime: string -> int)
    requires Due(event, now) && fetch(id) == Fetched([]) && updateOk(id)
    ensures var table := map[id := event];
      && DueIds(table, now) == {id}
      && Batches(table, now, fetch) == map[]
      && SentOver(DueIds(table, now), Batches(table, now, fetch), dispatchOk) == 0
      && AfterSweep(table, now, fetch, updateOk, markTime)[id].reminderSentAt.Some?
  {
    var table := map[id := event];
    assert DueIds(table, now) == {id};
    SentOverRemove({id}, id, Batches(table, now, fetch), dispatchOk);
    assert {id} - {id} == {};
  }
}
