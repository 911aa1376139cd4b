/**
 * The deferred-reply scheduler of conversation/services/email_processor.py.
 *
 * `Ingest` and `Sweep` are the specification: what `_process_single_email`
 * and `send_scheduled_messages` do to the store, as functions of the store
 * before the call. The class `Store` holds the four tables and runs the same
 * steps in place; its methods are proved to end in the state (and with the
 * exception) the specification gives.
 *
 * Collaborators are parameters: `details` is what `get_message_details`
 * returned, `replies` what the NLP service answered, `now` the clock, and
 * `send` the Gmail transport (`send_email`), whose returned id may be `""`.
 * The transport also receives the number of messages stored when it is
 * called; every recorded send stores one more message, so no two calls that
 * are both recorded see the same number, and a transport can answer each
 * call with an id of its own, as Gmail does.
 */
module EmailProcessor {
  import opened Wrappers
  import opened Models
  import Gmail

  /** The exceptions that end a call of the processor, with every save made before them kept. */
  datatype Failure =
    | KeyError        // a key missing from the message details
    | IntegrityError  // an insert that repeats a `message_id`
    | TypeError       // `None > datetime`: the latest message has no timestamp

  /** The NLP service's answers for one inbound message. */
  datatype Replies = Replies(
    response: string,
    latencyMinutes: int,
    followupTime: Time,
    followupSubject: string,
    followupContent: string)

  /** The state after a call, and the exception that ended it, if any. */
  datatype Outcome = Outcome(db: Db, failure: Option<Failure>)

  /**
   * `send_email(to, subject, body, thread_id)`, called when `n` messages are
   * stored: the id Gmail gave the sent message, `""` on failure.
   */
  type Transport = (nat, string, string, string, string) -> string

  // ---------------------------------------------------------------------------
  // Ingestion: _process_single_email
  // ---------------------------------------------------------------------------

  /** `Contact.objects.get_or_create(email=..., defaults={"name": ""})`. */
  function GetOrCreateContact(db: Db, email: string, now: Time): (r: (Db, nat))
    ensures r.1 < |r.0.contacts| && r.0.contacts[r.1].email == email
    ensures r.0.conversations == db.conversations && r.0.messages == db.messages && r.0.scheduled == db.scheduled
  {
    match FindContact(db.contacts, email)
    case Some(c) => (db, c)
    case None => (db.(contacts := db.contacts + [Contact(email, "", now, now)]), |db.contacts|)
  }

  /** `Conversation.objects.get_or_create(thread_id=..., defaults={"contact": contact})`. */
  function GetOrCreateConversation(db: Db, threadId: string, contact: nat, now: Time): (r: (Db, nat))
    ensures r.1 < |r.0.conversations| && r.0.conversations[r.1].threadId == threadId
    ensures r.0.contacts == db.contacts && r.0.messages == db.messages && r.0.scheduled == db.scheduled
  {
    match FindConversation(db.conversations, threadId)
    case Some(v) => (db, v)
    case None => (db.(conversations := db.conversations + [Conversation(contact, threadId, now)]), |db.conversations|)
  }

  /** The INCOMING message saved for the inbound mail: no sender, receiver or timestamp is set. */
  function IncomingMessage(conversation: nat, d: Gmail.MessageDetails): Message
  {
    Message(conversation, d.id, Incoming, d.subject, d.body, None, None, None)
  }

  /** The reply row: subject `Re: <subject>`, due `latency_minutes` after now. */
  function ReplyRow(conversation: nat, d: Gmail.MessageDetails, now: Time, replies: Replies): ScheduledMessage
  {
    NewScheduledMessage(conversation, replies.response, "Re: " + d.subject, now, now + replies.latencyMinutes)
  }

  /** The follow-up row: subject, body and time as the NLP service gave them. */
  function FollowupRow(conversation: nat, now: Time, replies: Replies): ScheduledMessage
  {
    NewScheduledMessage(conversation, replies.followupContent, replies.followupSubject, now, replies.followupTime)
  }

  /**
   * `_process_single_email`. `details` is `None` when `get_message_details`
   * returned a dictionary without the message (`{}`, or the error dictionary),
   * so that `message_details["from"]` raises.
   */
  function Ingest(db: Db, details: Option<Gmail.MessageDetails>, now: Time, replies: Replies): (o: Outcome)
  {
    match details
    case None => Outcome(db, Some(KeyError))
    case Some(d) =>
      var (db1, c) := GetOrCreateContact(db, d.sender, now);
      var (db2, v) := GetOrCreateConversation(db1, d.threadId, c, now);
      if MessageIdTaken(db2.messages, d.id) then Outcome(db2, Some(IntegrityError))
      else
        Outcome(db2.(messages := db2.messages + [IncomingMessage(v, d)],
                     scheduled := db2.scheduled + [ReplyRow(v, d, now, replies), FollowupRow(v, now, replies)]),
                None)
  }

  // ---------------------------------------------------------------------------
  // The sweep: send_scheduled_messages
  // ---------------------------------------------------------------------------

  /**
   * The filter `scheduled_send_time__lte=now, sent=False`. The source does not
   * exclude cancelled rows; `excludeCanceled` adds `canceled=False`, for the
   * variant that does.
   */
  predicate IsDue(row: ScheduledMessage, now: Time, excludeCanceled: bool)
  {
    row.scheduledSendTime <= now && !row.sent && (excludeCanceled ==> !row.canceled)
  }

  /** The positions of the due rows, in table order. */
  function DueRows(rows: seq<ScheduledMessage>, now: Time, excludeCanceled: bool): (ks: seq<nat>)
    ensures forall i :: 0 <= i < |ks| ==> ks[i] < |rows|
    ensures forall k: nat :: k in ks <==> k < |rows| && IsDue(rows[k], now, excludeCanceled)
    ensures forall i, j :: 0 <= i < j < |ks| ==> ks[i] < ks[j]
  {
    if |rows| == 0 then []
    else
      var n := |rows| - 1;
      var ks := DueRows(rows[..n], now, excludeCanceled);
      assert forall k: nat :: k < n ==> rows[..n][k] == rows[k];
      if IsDue(rows[n], now, excludeCanceled) then ks + [n] else ks
  }

  predicate KeyLt(a: Option<Time>, b: Option<Time>)
  {
    !KeyLe(b, a)
  }

  /**
   * `Message.objects.filter(conversation=...).order_by("-timestamp").first()`,
   * as a position: a message of the conversation with the greatest timestamp,
   * the earliest stored one among equals.
   */
  function LatestIndex(ms: seq<Message>, conv: nat): (r: Option<nat>)
    ensures r.None? <==> forall j :: 0 <= j < |ms| ==> ms[j].conversation != conv
    ensures r.Some? ==> r.value < |ms| && ms[r.value].conversation == conv
    ensures r.Some? ==> forall j :: 0 <= j < |ms| && ms[j].conversation == conv ==>
                          KeyLe(ms[j].timestamp, ms[r.value].timestamp)
    ensures r.Some? ==> forall j :: 0 <= j < r.value && ms[j].conversation == conv ==>
                          KeyLt(ms[j].timestamp, ms[r.value].timestamp)
  {
    if |ms| == 0 then None
    else
      var n := |ms| - 1;
      var prev := LatestIndex(ms[..n], conv);
      assert forall j :: 0 <= j < n ==> ms[..n][j] == ms[j];
      if ms[n].conversation == conv && (prev.None? || KeyLt(ms[prev.value].timestamp, ms[n].timestamp))
      then Some(n)
      else prev
  }

  /** What the sweep decides for a row: cancel it, send it, or raise on the comparison. */
  datatype Decision = Cancel | Dispatch | Raise

  /**
   * The cancellation test: a latest message exists, it is INCOMING, and its
   * timestamp is after the row's creation. The comparison is only reached for
   * an INCOMING latest message, and raises when it has no timestamp.
   */
  function Decide(ms: seq<Message>, row: ScheduledMessage): (d: Decision)
  {
    match LatestIndex(ms, row.conversation)
    case None => Dispatch
    case Some(i) =>
      if ms[i].messageType != Incoming then Dispatch
      else match ms[i].timestamp
        case None => Raise
        case Some(t) => if t > row.createdAt then Cancel else Dispatch
  }

  /** The OUTGOING message recorded for a sent row, under whatever id the transport returned. */
  function OutgoingMessage(row: ScheduledMessage, id: string): Message
  {
    Message(row.conversation, id, Outgoing, row.draftSubject, row.draftContent, None, None, None)
  }

  /** The id the transport returns for the row, sent to the contact on the conversation's thread. */
  function SendRow(db: Db, row: ScheduledMessage, send: Transport): (id: string)
    requires References(db) && row.conversation < |db.conversations|
  {
    var conv := db.conversations[row.conversation];
    send(|db.messages|, db.contacts[conv.contact].email, row.draftSubject, row.draftContent, conv.threadId)
  }

  /** One pass of the loop body, for the row at position `k`. */
  function ProcessRow(db: Db, k: nat, send: Transport): (o: Outcome)
    requires References(db) && k < |db.scheduled|
    ensures References(o.db) && |o.db.scheduled| == |db.scheduled|
    ensures o.db.contacts == db.contacts && o.db.conversations == db.conversations
  {
    var row := db.scheduled[k];
    match Decide(db.messages, row)
    case Raise => Outcome(db, Some(TypeError))
    case Cancel => Outcome(db.(scheduled := db.scheduled[k := row.(canceled := true)]), None)
    case Dispatch =>
      var id := SendRow(db, row, send);
      if MessageIdTaken(db.messages, id) then Outcome(db, Some(IntegrityError))
      else Outcome(db.(messages := db.messages + [OutgoingMessage(row, id)],
                       scheduled := db.scheduled[k := row.(sent := true)]), None)
  }

  /** The loop over the rows at positions `ks`, stopping at the first exception. */
  function RunRows(db: Db, ks: seq<nat>, send: Transport): (o: Outcome)
    requires References(db) && forall i :: 0 <= i < |ks| ==> ks[i] < |db.scheduled|
    ensures References(o.db) && |o.db.scheduled| == |db.scheduled|
    ensures o.db.contacts == db.contacts && o.db.conversations == db.conversations
    decreases |ks|
  {
    if |ks| == 0 then Outcome(db, None)
    else
      var o := ProcessRow(db, ks[0], send);
      if o.failure.Some? then o else RunRows(o.db, ks[1..], send)
  }

  /** `send_scheduled_messages`: the loop over the rows due at `now`, in table order. */
  function Sweep(db: Db, now: Time, send: Transport, excludeCanceled: bool): (o: Outcome)
    requires References(db)
  {
    RunRows(db, DueRows(db.scheduled, now, excludeCanceled), send)
  }

  // ---------------------------------------------------------------------------
  // The store
  // ---------------------------------------------------------------------------

  lemma ProcessRowKeepsValid(db: Db, k: nat, send: Transport)
    requires Valid(db) && k < |db.scheduled|
    ensures Valid(ProcessRow(db, k, send).db)
  {
    var o := ProcessRow(db, k, send);
    if o.db.messages != db.messages {
      var id := SendRow(db, db.scheduled[k], send);
      assert o.db.messages == db.messages + [OutgoingMessage(db.scheduled[k], id)];
      assert !MessageIdTaken(db.messages, id);
    }
  }

  /** Every position in `ks` names a row. */
  ghost predicate InRange(ks: seq<nat>, db: Db)
  {
    forall i :: 0 <= i < |ks| ==> ks[i] < |db.scheduled|
  }

  /** The loop takes one row's step, and goes on from its state only when it did not raise. */
  lemma RunRowsStep(before: Db, after: Db, failure: Option<Failure>, ks: seq<nat>, i: nat, send: Transport)
    requires References(before) && InRange(ks, before) && i < |ks|
    requires Outcome(after, failure) == ProcessRow(before, ks[i], send)
    ensures failure.Some? ==> RunRows(before, ks[i..], send) == Outcome(after, failure)
    ensures failure.None? ==> RunRows(before, ks[i..], send) == RunRows(after, ks[i + 1..], send)
  {
    assert ks[i..][0] == ks[i] && ks[i..][1..] == ks[i + 1..];
  }

  /** The sweep keeps the uniqueness keys and foreign keys of the store. */
  lemma {:induction false} RunRowsKeepsValid(db: Db, ks: seq<nat>, send: Transport)
    requires Valid(db) && InRange(ks, db)
    ensures Valid(RunRows(db, ks, send).db)
    decreases |ks|
  {
    if |ks| > 0 {
      ProcessRowKeepsValid(db, ks[0], send);
      var o1 := ProcessRow(db, ks[0], send);
      if o1.failure.None? {
        RunRowsKeepsValid(o1.db, ks[1..], send);
      }
    }
  }

  lemma SweepKeepsValid(db: Db, now: Time, send: Transport, excludeCanceled: bool)
    requires Valid(db)
    ensures Valid(Sweep(db, now, send, excludeCanceled).db)
  {
    RunRowsKeepsValid(db, DueRows(db.scheduled, now, excludeCanceled), send);
  }

  lemma ContactKeepsValid(db: Db, email: string, now: Time)
    requires Valid(db)
    ensures Valid(GetOrCreateContact(db, email, now).0)
  {
  }

  lemma ConversationKeepsValid(db: Db, threadId: string, contact: nat, now: Time)
    requires Valid(db) && contact < |db.contacts|
    ensures Valid(GetOrCreateConversation(db, threadId, contact, now).0)
  {
  }

  lemma InsertKeepsValid(db: Db, m: Message, rows: seq<ScheduledMessage>)
    requires Valid(db) && m.conversation < |db.conversations| && !MessageIdTaken(db.messages, m.messageId)
    requires forall k :: 0 <= k < |rows| ==> rows[k].conversation < |db.conversations|
    ensures Valid(db.(messages := db.messages + [m], scheduled := db.scheduled + rows))
  {
    var db' := db.(messages := db.messages + [m], scheduled := db.scheduled + rows);
    assert forall k :: |db.scheduled| <= k < |db'.scheduled| ==> db'.scheduled[k] == rows[k - |db.scheduled|];
  }

  lemma IngestKeepsValid(db: Db, details: Option<Gmail.MessageDetails>, now: Time, replies: Replies)
    requires Valid(db)
    ensures Valid(Ingest(db, details, now, replies).db)
  {
    if details.Some? {
      var d := details.value;
      ContactKeepsValid(db, d.sender, now);
      var (db1, c) := GetOrCreateContact(db, d.sender, now);
      ConversationKeepsValid(db1, d.threadId, c, now);
      var (db2, v) := GetOrCreateConversation(db1, d.threadId, c, now);
      if !MessageIdTaken(db2.messages, d.id) {
        InsertKeepsValid(db2, IncomingMessage(v, d), [ReplyRow(v, d, now, replies), FollowupRow(v, now, replies)]);
      }
    }
  }

  /** The four tables, updated in place by the processor. */
  class Store {
    var contacts: seq<Contact>
    var conversations: seq<Conversation>
    var messages: seq<Message>
    var scheduled: seq<ScheduledMessage>

    function State(): Db
      reads this
    {
      Db(contacts, conversations, messages, scheduled)
    }

    ghost predicate Valid()
      reads this
    {
      Models.Valid(State())
    }

    constructor ()
      ensures Valid() && State() == Db([], [], [], [])
    {
      contacts, conversations, messages, scheduled := [], [], [], [];
    }

    /** `_process_single_email`: ends in the state, and with the exception, that `Ingest` gives. */
    method ProcessSingleEmail(details: Option<Gmail.MessageDetails>, now: Time, replies: Replies)
      returns (failure: Option<Failure>)
      requires Valid()
      modifies this
      ensures Outcome(State(), failure) == Ingest(old(State()), details, now, replies)
      ensures Valid()
    {
      IngestKeepsValid(State(), details, now, replies);
      if details.None? {
        return Some(KeyError);
      }
      var d := details.value;
      var contact: nat;
      match FindContact(contacts, d.sender) {
        case Some(c) => contact := c;
        case None =>
          contact := |contacts|;
          contacts := contacts + [Contact(d.sender, "", now, now)];
      }
      var conversation: nat;
      assert State() == GetOrCreateContact(old(State()), d.sender, now).0;
      assert contact == GetOrCreateContact(old(State()), d.sender, now).1;
      ghost var db1 := State();
      match FindConversation(conversations, d.threadId) {
        case Some(v) => conversation := v;
        case None =>
          conversation := |conversations|;
          conversations := conversations + [Conversation(contact, d.threadId, now)];
      }
      assert State() == GetOrCreateConversation(db1, d.threadId, contact, now).0;
      assert conversation == GetOrCreateConversation(db1, d.threadId, contact, now).1;
      if MessageIdTaken(messages, d.id) {
        return Some(IntegrityError);
      }
      messages := messages + [IncomingMessage(conversation, d)];
      scheduled := scheduled + [ReplyRow(conversation, d, now, replies)];
      scheduled := scheduled + [FollowupRow(conversation, now, replies)];
      failure := None;
    }

    /**
     * The body of the loop of `send_scheduled_messages` for the row at
     * position `k`: cancel it, or send it and record the OUTGOING message,
     * or raise. It ends in the state, and with the exception, that
     * `ProcessRow` gives.
     */
    method SweepRow(k: nat, send: Transport) returns (failure: Option<Failure>)
      requires References(State()) && k < |scheduled|
      modifies this
      ensures Outcome(State(), failure) == ProcessRow(old(State()), k, send)
    {
      var row := scheduled[k];
      var latest := LatestIndex(messages, row.conversation);
      if latest.Some? && messages[latest.value].messageType == Incoming {
        match messages[latest.value].timestamp {
          case None =>
            return Some(TypeError);
          case Some(t) =>
            if t > row.createdAt {
              scheduled := scheduled[k := row.(canceled := true)];
              return None;
            }
        }
      }
      var conv := conversations[row.conversation];
      var id := send(|messages|, contacts[conv.contact].email, row.draftSubject, row.draftContent, conv.threadId);
      if MessageIdTaken(messages, id) {
        return Some(IntegrityError);
      }
      messages := messages + [OutgoingMessage(row, id)];
      scheduled := scheduled[k := row.(sent := true)];
      return None;
    }

    /** `send_scheduled_messages`: ends in the state, and with the exception, that `Sweep` gives. */
    method SendScheduledMessages(now: Time, send: Transport) returns (failure: Option<Failure>)
      requires Valid()
      modifies this
      ensures Outcome(State(), failure) == Sweep(old(State()), now, send, false)
      ensures Valid()
    {
      var due := DueRows(scheduled, now, false);
      ghost var target := RunRows(State(), due, send);
      assert target == Sweep(old(State()), now, send, false);
      RunRowsKeepsValid(State(), due, send);
      var i := 0;
      while i < |due|
        invariant 0 <= i <= |due|
        invariant References(State()) && |scheduled| == |old(scheduled)|
        invariant RunRows(State(), due[i..], send) == target
      {
        ghost var before := State();
        failure := SweepRow(due[i], send);
        RunRowsStep(before, State(), failure, due, i, send);
        if failure.Some? {
          return;
        }
        i := i + 1;
      }
      failure := None;
    }
  }
}
