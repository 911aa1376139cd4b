/**
 * Properties of the scheduler in conversation/services/email_processor.py,
 * stated over the specification functions `Ingest` and `Sweep` that the
 * methods of `EmailProcessor.Store` are proved to follow.
 */
module ProcessorProperties {
  import opened Wrappers
  import opened Models
  import opened EmailProcessor
  import Gmail

  // ---------------------------------------------------------------------------
  // Ingestion
  // ---------------------------------------------------------------------------

  /**
   * Ingestion completes exactly when the details carry the message and its id
   * is new; it then adds one INCOMING message and the two rows of its
   * conversation, both pending: the reply (`Re: <subject>`, due
   * `latency_minutes` after now) and the follow-up (the NLP service's own time,
   * subject and body). Nothing else in those two tables changes.
   */
  lemma IngestAddsMessageAndTwoRows(db: Db, details: Option<Gmail.MessageDetails>, now: Time, replies: Replies)
    ensures var o := Ingest(db, details, now, replies);
      o.failure.None? <==> details.Some? && !MessageIdTaken(db.messages, details.value.id)
    ensures var o := Ingest(db, details, now, replies);
      o.failure.None? ==>
        var d, n, m := details.value, |db.scheduled|, |db.messages|;
        && |o.db.messages| == m + 1 && o.db.messages[..m] == db.messages
        && |o.db.scheduled| == n + 2 && o.db.scheduled[..n] == db.scheduled
        && var msg, reply, followup := o.db.messages[m], o.db.scheduled[n], o.db.scheduled[n + 1];
           && msg.messageType == Incoming && msg.messageId == d.id
           && msg.subject == d.subject && msg.content == d.body
           && msg.sender.None? && msg.receiver.None? && msg.timestamp.None?
           && msg.conversation < |o.db.conversations|
           && o.db.conversations[msg.conversation].threadId == d.threadId
           && reply.conversation == msg.conversation && followup.conversation == msg.conversation
           && !reply.sent && !reply.canceled && !followup.sent && !followup.canceled
           && reply.draftSubject == "Re: " + d.subject && reply.draftContent == replies.response
           && reply.scheduledSendTime == now + replies.latencyMinutes && reply.createdAt == now
           && followup.draftSubject == replies.followupSubject
           && followup.draftContent == replies.followupContent
           && followup.scheduledSendTime == replies.followupTime && followup.createdAt == now
  {
    if details.Some? {
      var d := details.value;
      var o := Ingest(db, details, now, replies);
      if o.failure.None? {
        assert o.db.messages[..|db.messages|] == db.messages;
        assert o.db.scheduled[..|db.scheduled|] == db.scheduled;
      }
    }
  }

  /**
   * Find-or-create: a Contact with the sender's email, and a Conversation with
   * the thread id, are reused and left as they are (the conversation keeps its
   * own contact); otherwise one is appended, the new conversation owned by the
   * sender's contact. This happens before the message insert, so it is kept
   * when that insert fails.
   */
  lemma IngestFindOrCreate(db: Db, d: Gmail.MessageDetails, now: Time, replies: Replies)
    ensures var o := Ingest(db, Some(d), now, replies);
      && ((exists i :: 0 <= i < |db.contacts| && db.contacts[i].email == d.sender) ==>
            o.db.contacts == db.contacts)
      && ((forall i :: 0 <= i < |db.contacts| ==> db.contacts[i].email != d.sender) ==>
            o.db.contacts == db.contacts + [Contact(d.sender, "", now, now)])
      && ((exists v :: 0 <= v < |db.conversations| && db.conversations[v].threadId == d.threadId) ==>
            o.db.conversations == db.conversations)
      && ((forall v :: 0 <= v < |db.conversations| ==> db.conversations[v].threadId != d.threadId) ==>
            && |o.db.conversations| == |db.conversations| + 1
            && o.db.conversations[..|db.conversations|] == db.conversations
            && var conv := o.db.conversations[|db.conversations|];
               && conv.threadId == d.threadId && conv.lastUpdated == now
               && conv.contact < |o.db.contacts| && o.db.contacts[conv.contact].email == d.sender)
  {
    var o := Ingest(db, Some(d), now, replies);
    if forall v :: 0 <= v < |db.conversations| ==> db.conversations[v].threadId != d.threadId {
      assert o.db.conversations[..|db.conversations|] == db.conversations;
    }
  }

  /** A repeated `message_id` fails the Message insert, before any ScheduledMessage is created. */
  lemma DuplicateMessageId(db: Db, d: Gmail.MessageDetails, now: Time, replies: Replies)
    requires MessageIdTaken(db.messages, d.id)
    ensures var o := Ingest(db, Some(d), now, replies);
      && o.failure == Some(IntegrityError)
      && o.db.messages == db.messages && o.db.scheduled == db.scheduled
  {
  }

  /**
   * Re-delivery after a completed ingestion is harmless: ingesting the same
   * mail again leaves the store exactly as it was, with an IntegrityError.
   */
  lemma IngestTwice(db: Db, d: Gmail.MessageDetails, now: Time, replies: Replies, later: Time, replies': Replies)
    requires Valid(db)
    requires Ingest(db, Some(d), now, replies).failure.None?
    ensures var db1 := Ingest(db, Some(d), now, replies).db;
      Ingest(db1, Some(d), later, replies') == Outcome(db1, Some(IntegrityError))
  {
    var db1 := Ingest(db, Some(d), now, replies).db;
    var m := |db1.messages| - 1;
    assert db1.messages[m].messageId == d.id;
    assert MessageIdTaken(db1.messages, d.id);
    var c :| 0 <= c < |db1.contacts| && db1.contacts[c].email == d.sender;
    assert FindContact(db1.contacts, d.sender).Some?;
    var v := db1.messages[m].conversation;
    assert db1.conversations[v].threadId == d.threadId;
    assert FindConversation(db1.conversations, d.threadId).Some?;
  }

  // ---------------------------------------------------------------------------
  // One row of the sweep
  // ---------------------------------------------------------------------------

  /**
   * The cancellation rule: a due row is cancelled (`canceled` set, `sent` left
   * as it was, no message appended) exactly when the conversation's latest
   * message is INCOMING with a timestamp after the row's creation. With an
   * INCOMING latest message that has no timestamp the comparison raises and
   * nothing changes.
   */
  lemma RowCancellation(db: Db, k: nat, send: Transport)
    requires References(db) && k < |db.scheduled|
    ensures var row, o := db.scheduled[k], ProcessRow(db, k, send);
      var latest := LatestIndex(db.messages, row.conversation);
      && (o.failure.None? && o.db.messages == db.messages && o.db.scheduled == db.scheduled[k := row.(canceled := true)]
          <==> latest.Some? && db.messages[latest.value].messageType == Incoming
               && db.messages[latest.value].timestamp.Some?
               && db.messages[latest.value].timestamp.value > row.createdAt)
      && (o.failure == Some(TypeError)
          <==> latest.Some? && db.messages[latest.value].messageType == Incoming
               && db.messages[latest.value].timestamp.None?)
      && (o.failure.Some? ==> o.db == db)
  {
  }

  /**
   * A due row that is not cancelled is sent: it gets one OUTGOING message with
   * its subject and content under the id the transport returned, and `sent`
   * is set, whatever that id is, `""` included. Only an id already in the
   * store stops it, with an IntegrityError, after the mail went out and
   * before anything is saved.
   */
  lemma RowDispatch(db: Db, k: nat, send: Transport)
    requires References(db) && k < |db.scheduled|
    requires Decide(db.messages, db.scheduled[k]) == Dispatch
    ensures var row, o := db.scheduled[k], ProcessRow(db, k, send);
      var id := SendRow(db, row, send);
      && (MessageIdTaken(db.messages, id) ==> o == Outcome(db, Some(IntegrityError)))
      && (!MessageIdTaken(db.messages, id) ==>
            && o.failure.None?
            && o.db.messages == db.messages + [o.db.messages[|db.messages|]]
            && (var msg := o.db.messages[|db.messages|];
                && msg.messageType == Outgoing && msg.messageId == id
                && msg.conversation == row.conversation
                && msg.subject == row.draftSubject && msg.content == row.draftContent)
            && o.db.scheduled == db.scheduled[k := row.(sent := true)])
  {
  }

  /** A failed send (`""` returned) still marks the row sent, the first time that id is used. */
  lemma FailedSendMarksSent(db: Db, k: nat, send: Transport)
    requires References(db) && k < |db.scheduled|
    requires Decide(db.messages, db.scheduled[k]) == Dispatch
    requires SendRow(db, db.scheduled[k], send) == "" && !MessageIdTaken(db.messages, "")
    ensures ProcessRow(db, k, send).db.scheduled[k].sent
    ensures ProcessRow(db, k, send).db.messages[|db.messages|].messageId == ""
  {
  }

  // ---------------------------------------------------------------------------
  // The whole sweep: what it touches
  // ---------------------------------------------------------------------------

  ghost predicate Increasing(ks: seq<nat>)
  {
    forall i, j :: 0 <= i < j < |ks| ==> ks[i] < ks[j]
  }

  /** `db2` has the messages of `db` and then only OUTGOING messages without a timestamp. */
  ghost predicate Extends(db: Db, db2: Db)
  {
    && |db.messages| <= |db2.messages|
    && db2.messages[..|db.messages|] == db.messages
    && forall i :: |db.messages| <= i < |db2.messages| ==>
         db2.messages[i].messageType == Outgoing && db2.messages[i].timestamp.None?
  }

  /** A row is left alone, cancelled, or sent: no other change is ever made to it. */
  ghost predicate RowStep(before: ScheduledMessage, after: ScheduledMessage)
  {
    after == before || after == before.(canceled := true) || after == before.(sent := true)
  }

  /** One row: the messages only grow by OUTGOING messages, and only row `k` may change, by one step. */
  lemma ProcessRowStep(db: Db, k: nat, send: Transport)
    requires References(db) && k < |db.scheduled|
    ensures var o := ProcessRow(db, k, send);
      && Extends(db, o.db)
      && o.db.scheduled == db.scheduled[k := o.db.scheduled[k]]
      && RowStep(db.scheduled[k], o.db.scheduled[k])
      && (o.failure.Some? ==> o.db == db)
  {
    var o := ProcessRow(db, k, send);
    assert o.db.messages[..|db.messages|] == db.messages;
  }

  lemma ExtendsTrans(db: Db, db1: Db, db2: Db)
    requires Extends(db, db1) && Extends(db1, db2)
    ensures Extends(db, db2)
  {
    assert db2.messages[..|db.messages|] == db1.messages[..|db.messages|];
  }

  lemma {:induction false} RunRowsFrame(db: Db, ks: seq<nat>, send: Transport)
    requires References(db) && InRange(ks, db) && Increasing(ks)
    ensures var o := RunRows(db, ks, send);
      && Extends(db, o.db)
      && (forall k :: 0 <= k < |db.scheduled| && k !in ks ==> o.db.scheduled[k] == db.scheduled[k])
      && (forall k :: 0 <= k < |db.scheduled| ==> RowStep(db.scheduled[k], o.db.scheduled[k]))
    decreases |ks|
  {
    var o := RunRows(db, ks, send);
    if |ks| == 0 {
      assert db.messages[..|db.messages|] == db.messages;
    } else {
      var k0 := ks[0];
      ProcessRowStep(db, k0, send);
      var o1 := ProcessRow(db, k0, send);
      if o1.failure.None? {
        var rest := ks[1..];
        assert InRange(rest, o1.db);
        RunRowsFrame(o1.db, rest, send);
        ExtendsTrans(db, o1.db, o.db);
        assert k0 !in rest by {
          forall i | 0 <= i < |rest| ensures rest[i] != k0 { assert rest[i] == ks[i + 1]; }
        }
        forall k | 0 <= k < |db.scheduled| && k !in ks ensures o.db.scheduled[k] == db.scheduled[k] {
          assert k !in rest;
        }
        forall k | 0 <= k < |db.scheduled| ensures RowStep(db.scheduled[k], o.db.scheduled[k]) {
          if k == k0 {
            assert o.db.scheduled[k] == o1.db.scheduled[k];
          } else {
            assert o1.db.scheduled[k] == db.scheduled[k];
          }
        }
      }
    }
  }

  /**
   * The sweep touches only due rows (`scheduled_send_time <= now` and not
   * sent); each of those it cancels, sends or leaves, and nothing else: the
   * contacts and conversations stay as they are, and the messages only grow,
   * by OUTGOING messages without a timestamp.
   */
  lemma SweepFrame(db: Db, now: Time, send: Transport, excludeCanceled: bool)
    requires References(db)
    ensures var o := Sweep(db, now, send, excludeCanceled);
      && o.db.contacts == db.contacts && o.db.conversations == db.conversations
      && |o.db.scheduled| == |db.scheduled|
      && Extends(db, o.db)
      && (forall k :: 0 <= k < |db.scheduled| && !IsDue(db.scheduled[k], now, excludeCanceled) ==>
            o.db.scheduled[k] == db.scheduled[k])
      && (forall k :: 0 <= k < |db.scheduled| ==> RowStep(db.scheduled[k], o.db.scheduled[k]))
  {
    var ks := DueRows(db.scheduled, now, excludeCanceled);
    RunRowsFrame(db, ks, send);
  }

  // ---------------------------------------------------------------------------
  // Running the sweep twice
  // ---------------------------------------------------------------------------

  lemma LatestAppendUntimed(ms: seq<Message>, m: Message, conv: nat)
    requires LatestIndex(ms, conv).Some? && m.timestamp.None?
    ensures LatestIndex(ms + [m], conv) == LatestIndex(ms, conv)
  {
    var all := ms + [m];
    assert all[..|ms|] == ms;
  }

  /** Appending messages without a timestamp never changes which message is the latest. */
  lemma {:induction false} LatestUnchanged(ms: seq<Message>, tail: seq<Message>, conv: nat)
    requires LatestIndex(ms, conv).Some?
    requires forall i :: 0 <= i < |tail| ==> tail[i].timestamp.None?
    ensures LatestIndex(ms + tail, conv) == LatestIndex(ms, conv)
    decreases |tail|
  {
    if |tail| == 0 {
      assert ms + tail == ms;
    } else {
      var n := |tail| - 1;
      var init := tail[..n];
      assert forall i :: 0 <= i < |init| ==> init[i] == tail[i];
      LatestUnchanged(ms, init, conv);
      assert ms + tail == (ms + init) + [tail[n]];
      LatestAppendUntimed(ms + init, tail[n], conv);
    }
  }

  lemma DecideCancelStays(db: Db, db2: Db, row: ScheduledMessage)
    requires Extends(db, db2) && Decide(db.messages, row) == Cancel
    ensures Decide(db2.messages, row) == Cancel
  {
    var tail := db2.messages[|db.messages|..];
    assert db2.messages == db.messages + tail;
    LatestUnchanged(db.messages, tail, row.conversation);
  }

  /**
   * After a sweep that completed, each row it processed is sent, or is
   * cancelled and would be cancelled again against the final messages.
   */
  lemma {:induction false} RunRowsSettles(db: Db, ks: seq<nat>, send: Transport)
    requires References(db) && InRange(ks, db) && Increasing(ks)
    requires forall i :: 0 <= i < |ks| ==> !db.scheduled[ks[i]].sent
    requires RunRows(db, ks, send).failure.None?
    ensures var o := RunRows(db, ks, send);
      forall i :: 0 <= i < |ks| ==>
        o.db.scheduled[ks[i]].sent
        || (o.db.scheduled[ks[i]].canceled && Decide(o.db.messages, o.db.scheduled[ks[i]]) == Cancel)
    decreases |ks|
  {
    if |ks| > 0 {
      var o := RunRows(db, ks, send);
      var k := ks[0];
      var o1 := ProcessRow(db, k, send);
      var rest := ks[1..];
      assert InRange(rest, o1.db);
      assert k !in rest by {
        forall i | 0 <= i < |rest| ensures rest[i] != k { assert rest[i] == ks[i + 1]; }
      }
      forall i | 0 <= i < |rest| ensures !o1.db.scheduled[rest[i]].sent {
        assert rest[i] == ks[i + 1];
      }
      RunRowsSettles(o1.db, rest, send);
      RunRowsFrame(o1.db, rest, send);
      assert o.db.scheduled[k] == o1.db.scheduled[k];
      if !o1.db.scheduled[k].sent {
        assert Decide(db.messages, db.scheduled[k]) == Cancel;
        assert o1.db.messages == db.messages;
        DecideCancelStays(o1.db, o.db, o1.db.scheduled[k]);
      }
      forall i | 0 <= i < |ks|
        ensures o.db.scheduled[ks[i]].sent
          || (o.db.scheduled[ks[i]].canceled && Decide(o.db.messages, o.db.scheduled[ks[i]]) == Cancel)
      {
        if i > 0 { assert ks[i] == rest[i - 1]; }
      }
    }
  }

  lemma {:induction false} RunRowsStill(db: Db, ks: seq<nat>, send: Transport)
    requires References(db) && InRange(ks, db)
    requires forall i :: 0 <= i < |ks| ==> ProcessRow(db, ks[i], send) == Outcome(db, None)
    ensures RunRows(db, ks, send) == Outcome(db, None)
    decreases |ks|
  {
    if |ks| > 0 {
      assert ProcessRow(db, ks[0], send) == Outcome(db, None);
      forall i | 0 <= i < |ks| - 1 ensures ProcessRow(db, ks[1..][i], send) == Outcome(db, None) {
        assert ks[1..][i] == ks[i + 1];
      }
      RunRowsStill(db, ks[1..], send);
    }
  }

  /**
   * Running the sweep twice at the same `now` is safe: once a sweep has
   * completed, a second one changes nothing, whatever transport it is given:
   * it makes no send at all. It never sends a row the first marked sent, and
   * the cancelled rows it examines again are cancelled again.
   */
  lemma SweepTwice(db: Db, now: Time, send: Transport, send': Transport)
    requires References(db)
    requires Sweep(db, now, send, false).failure.None?
    ensures var db1 := Sweep(db, now, send, false).db;
      Sweep(db1, now, send', false) == Outcome(db1, None)
  {
    var ks := DueRows(db.scheduled, now, false);
    var o1 := Sweep(db, now, send, false);
    var db1 := o1.db;
    RunRowsFrame(db, ks, send);
    RunRowsSettles(db, ks, send);
    var ks2 := DueRows(db1.scheduled, now, false);
    forall i | 0 <= i < |ks2| ensures ProcessRow(db1, ks2[i], send') == Outcome(db1, None) {
      var k := ks2[i];
      assert k in ks2;
      var row := db1.scheduled[k];
      var j :| 0 <= j < |ks| && ks[j] == k;
      assert row.canceled && Decide(db1.messages, row) == Cancel;
      assert row.(canceled := true) == row;
      assert db1.scheduled[k := row] == db1.scheduled;
    }
    RunRowsStill(db1, ks2, send');
  }

  // ---------------------------------------------------------------------------
  // sent and canceled together
  // ---------------------------------------------------------------------------

  /**
   * No row is both sent and cancelled: a row is pending, sent or cancelled.
   * The source's filter does not keep this (see `CancelledRowLaterSent`).
   */
  ghost predicate Exclusive(db: Db)
  {
    forall k :: 0 <= k < |db.scheduled| ==> !(db.scheduled[k].sent && db.scheduled[k].canceled)
  }

  lemma {:induction false} RunRowsExclusive(db: Db, ks: seq<nat>, send: Transport)
    requires References(db) && InRange(ks, db) && Increasing(ks) && Exclusive(db)
    requires forall i :: 0 <= i < |ks| ==> !db.scheduled[ks[i]].sent && !db.scheduled[ks[i]].canceled
    ensures Exclusive(RunRows(db, ks, send).db)
    decreases |ks|
  {
    if |ks| > 0 {
      var o1 := ProcessRow(db, ks[0], send);
      var rest := ks[1..];
      if o1.failure.None? {
        assert InRange(rest, o1.db);
        forall i | 0 <= i < |rest| ensures !o1.db.scheduled[rest[i]].sent && !o1.db.scheduled[rest[i]].canceled {
          assert rest[i] == ks[i + 1];
        }
        RunRowsExclusive(o1.db, rest, send);
      }
    }
  }

  /**
   * With the filter that also requires `canceled = False`, no sweep ever makes
   * a row both sent and cancelled.
   */
  lemma GuardedSweepExclusive(db: Db, now: Time, send: Transport)
    requires References(db) && Exclusive(db)
    ensures Exclusive(Sweep(db, now, send, true).db)
  {
    var ks := DueRows(db.scheduled, now, true);
    RunRowsExclusive(db, ks, send);
  }

  // ---------------------------------------------------------------------------
  // A transport that never repeats an id
  // ---------------------------------------------------------------------------

  /** Gmail's behaviour: calls made at different message counts get different ids. */
  ghost predicate DistinctIds(send: Transport)
  {
    forall n1: nat, n2: nat, to1, s1, b1, t1, to2, s2, b2, t2 ::
      n1 < n2 ==> send(n1, to1, s1, b1, t1) != send(n2, to2, s2, b2, t2)
  }

  /** No call made from now on returns an id that is already stored. */
  ghost predicate NewIds(ms: seq<Message>, send: Transport)
  {
    forall n: nat, to, s, b, t :: |ms| <= n ==> !MessageIdTaken(ms, send(n, to, s, b, t))
  }

  /** Storing the message of the call made at `|ms|` keeps every later call's id new. */
  lemma NewIdsStep(ms: seq<Message>, m: Message, send: Transport, to: string, s: string, b: string, t: string)
    requires DistinctIds(send) && NewIds(ms, send) && m.messageId == send(|ms|, to, s, b, t)
    ensures NewIds(ms + [m], send)
  {
    forall n: nat, to', s', b', t' | |ms + [m]| <= n
      ensures !MessageIdTaken(ms + [m], send(n, to', s', b', t'))
    {
      var id := send(n, to', s', b', t');
      assert !MessageIdTaken(ms, id);
      assert id != m.messageId;
      assert forall i :: 0 <= i < |ms| ==> (ms + [m])[i] == ms[i];
    }
  }

  lemma {:induction false} RunRowsDistinctIds(db: Db, ks: seq<nat>, send: Transport)
    requires References(db) && InRange(ks, db) && DistinctIds(send) && NewIds(db.messages, send)
    ensures RunRows(db, ks, send).failure != Some(IntegrityError)
    decreases |ks|
  {
    if |ks| > 0 {
      var row := db.scheduled[ks[0]];
      var o1 := ProcessRow(db, ks[0], send);
      if Decide(db.messages, row) == Dispatch {
        var conv := db.conversations[row.conversation];
        var id := SendRow(db, row, send);
        NewIdsStep(db.messages, OutgoingMessage(row, id), send,
                   db.contacts[conv.contact].email, row.draftSubject, row.draftContent, conv.threadId);
        assert !MessageIdTaken(db.messages, id);
        assert o1.db.messages == db.messages + [OutgoingMessage(row, id)];
      } else {
        assert o1.db.messages == db.messages;
      }
      if o1.failure.None? {
        assert InRange(ks[1..], o1.db);
        RunRowsDistinctIds(o1.db, ks[1..], send);
      }
    }
  }

  /**
   * With a transport that, like Gmail, answers every call with an id of its
   * own, the sweep never raises an IntegrityError, and a sweep that completes
   * leaves every due row sent or cancelled, rows with the same recipient,
   * subject and body included.
   */
  lemma SweepWithDistinctIds(db: Db, now: Time, send: Transport)
    requires References(db) && DistinctIds(send) && NewIds(db.messages, send)
    ensures Sweep(db, now, send, false).failure != Some(IntegrityError)
    ensures var o := Sweep(db, now, send, false);
      o.failure.None? ==>
        forall k :: 0 <= k < |db.scheduled| && IsDue(db.scheduled[k], now, false) ==>
          o.db.scheduled[k].sent || o.db.scheduled[k].canceled
  {
    var ks := DueRows(db.scheduled, now, false);
    RunRowsDistinctIds(db, ks, send);
    var o := Sweep(db, now, send, false);
    if o.failure.None? {
      RunRowsSettles(db, ks, send);
      forall k | 0 <= k < |db.scheduled| && IsDue(db.scheduled[k], now, false)
        ensures o.db.scheduled[k].sent || o.db.scheduled[k].canceled
      {
        assert k in ks;
        var j :| 0 <= j < |ks| && ks[j] == k;
      }
    }
  }

  /** A transport that numbers its messages: `sent-<n>` for the call made at `n`. */
  const Numbered: Transport := (n: nat, to: string, subject: string, body: string, thread: string) => "sent-" + NatToString(n)

  lemma NumberedIdsDistinct()
    ensures DistinctIds(Numbered)
  {
    forall n1: nat, n2: nat, to1, s1, b1, t1, to2, s2, b2, t2 | n1 < n2
      ensures Numbered(n1, to1, s1, b1, t1) != Numbered(n2, to2, s2, b2, t2)
    {
      NatToStringRoundTrip(n1);
      NatToStringRoundTrip(n2);
      assert Numbered(n1, to1, s1, b1, t1)[5..] == NatToString(n1);
      assert Numbered(n2, to2, s2, b2, t2)[5..] == NatToString(n2);
    }
  }

  // Two identical follow-ups of one thread, due at 8, after a timestamped OUTGOING message.
  const RowA := ScheduledMessage(0, "Any news?", "Follow-up", 5, 8, false, false)
  const Twins := Db([Contact("a@example.com", "", 0, 0)], [Conversation(0, "thread-1", 0)], [Outgoing2], [RowA, RowA])

  const Twins1 := Twins.(messages := [Outgoing2, OutgoingMessage(RowA, "sent-1")],
                         scheduled := [RowA.(sent := true), RowA])

  lemma TwinsDue()
    ensures DueRows(Twins.scheduled, 8, false) == [0, 1]
  {
    assert Twins.scheduled[..1] == [RowA] && [RowA][..0] == [];
    assert DueRows([RowA], 8, false) == [0];
  }

  lemma FirstTwinSent()
    ensures ProcessRow(Twins, 0, Numbered) == Outcome(Twins1, None)
  {
    assert LatestIndex(Twins.messages, 0) == Some(0);
    assert Decide(Twins.messages, RowA) == Dispatch;
    assert NatToString(1) == "1";
    assert SendRow(Twins, RowA, Numbered) == "sent-1";
    assert !MessageIdTaken(Twins.messages, "sent-1");
  }

  lemma SecondTwinSent()
    ensures ProcessRow(Twins1, 1, Numbered)
         == Outcome(Twins1.(messages := Twins1.messages + [OutgoingMessage(RowA, "sent-2")],
                            scheduled := [RowA.(sent := true), RowA.(sent := true)]), None)
  {
    var ms1 := Twins1.messages;
    assert ms1[..1] == [Outgoing2];
    assert LatestIndex(ms1, 0) == Some(0);
    assert Decide(ms1, RowA) == Dispatch;
    assert NatToString(2) == "2";
    assert SendRow(Twins1, RowA, Numbered) == "sent-2";
    assert !MessageIdTaken(ms1, "sent-2");
  }

  /** Rows with the same recipient, subject and body are both sent when each call gets its own id. */
  lemma IdenticalRowsBothSent()
    ensures Sweep(Twins, 8, Numbered, false)
         == Outcome(Twins.(messages := [Outgoing2, OutgoingMessage(RowA, "sent-1"), OutgoingMessage(RowA, "sent-2")],
                           scheduled := [RowA.(sent := true), RowA.(sent := true)]), None)
  {
    TwinsDue();
    FirstTwinSent();
    SecondTwinSent();
    assert [0, 1][1..] == [1] && [1][1..] == [];
  }

  // A conversation whose INCOMING message (at 10) is newer than the reply row (created at 5, due at 8).
  const Transport1: Transport := (n, to, subject, body, thread) => "sent-1"
  const Incoming1 := Message(0, "msg-1", Incoming, "Hi", "Hello", None, None, Some(10))
  const Outgoing2 := Message(0, "msg-2", Outgoing, "Re: Hi", "Later", None, None, Some(20))
  const Row1 := ScheduledMessage(0, "Thanks", "Re: Hi", 5, 8, false, false)
  const Store0 := Db([Contact("a@example.com", "", 0, 0)], [Conversation(0, "thread-1", 0)], [Incoming1], [Row1])

  lemma FirstSweepCancels()
    ensures Sweep(Store0, 8, Transport1, false) == Outcome(Store0.(scheduled := [Row1.(canceled := true)]), None)
  {
    assert DueRows(Store0.scheduled, 8, false) == [0];
    assert LatestIndex(Store0.messages, 0) == Some(0);
    assert Decide(Store0.messages, Row1) == Cancel;
    assert [0][1..] == [];
  }

  lemma LaterSweepSends(db: Db)
    requires db == Store0.(messages := [Incoming1, Outgoing2], scheduled := [Row1.(canceled := true)])
    ensures Sweep(db, 9, Transport1, false)
         == Outcome(db.(messages := [Incoming1, Outgoing2, OutgoingMessage(Row1.(canceled := true), "sent-1")],
                        scheduled := [Row1.(canceled := true, sent := true)]), None)
  {
    assert DueRows(db.scheduled, 9, false) == [0];
    assert [Incoming1, Outgoing2][..1] == [Incoming1];
    assert LatestIndex(db.messages, 0) == Some(1);
    assert Decide(db.messages, db.scheduled[0]) == Dispatch;
    assert !MessageIdTaken(db.messages, "sent-1");
    assert [0][1..] == [];
  }

  /**
   * The source's own filter re-examines a cancelled row, and sends it once its
   * conversation's latest message is no longer a newer INCOMING one (here a
   * timestamped OUTGOING message written by another writer): the row ends
   * both sent and cancelled.
   */
  lemma CancelledRowLaterSent()
    ensures
      var o1 := Sweep(Store0, 8, Transport1, false);
      var db1 := o1.db.(messages := o1.db.messages + [Outgoing2]);
      var o2 := Sweep(db1, 9, Transport1, false);
      && o1.failure.None? && o1.db.scheduled[0].canceled && !o1.db.scheduled[0].sent
      && o2.failure.None? && o2.db.scheduled[0].canceled && o2.db.scheduled[0].sent
  {
    FirstSweepCancels();
    var o1 := Sweep(Store0, 8, Transport1, false);
    var db1 := o1.db.(messages := o1.db.messages + [Outgoing2]);
    assert db1 == Store0.(messages := [Incoming1, Outgoing2], scheduled := [Row1.(canceled := true)]);
    LaterSweepSends(db1);
  }

  // ---------------------------------------------------------------------------
  // A store written only by the processor
  // ---------------------------------------------------------------------------

  /**
   * What ingestion alone produces: every message is INCOMING without a
   * timestamp, and every row's conversation has a message.
   */
  ghost predicate IngestedOnly(db: Db)
  {
    && (forall i :: 0 <= i < |db.messages| ==>
          db.messages[i].messageType == Incoming && db.messages[i].timestamp.None?)
    && (forall k :: 0 <= k < |db.scheduled| ==>
          exists i :: 0 <= i < |db.messages| && db.messages[i].conversation == db.scheduled[k].conversation)
  }

  lemma IngestKeepsIngestedOnly(db: Db, details: Option<Gmail.MessageDetails>, now: Time, replies: Replies)
    requires IngestedOnly(db)
    ensures IngestedOnly(Ingest(db, details, now, replies).db)
  {
    var o := Ingest(db, details, now, replies);
    IngestAddsMessageAndTwoRows(db, details, now, replies);
    if o.failure.None? {
      var m := |db.messages|;
      forall k | 0 <= k < |o.db.scheduled|
        ensures exists i :: 0 <= i < |o.db.messages| && o.db.messages[i].conversation == o.db.scheduled[k].conversation
      {
        if k < |db.scheduled| {
          var i :| 0 <= i < |db.messages| && db.messages[i].conversation == db.scheduled[k].conversation;
          assert o.db.messages[i] == o.db.messages[..m][i];
          assert o.db.scheduled[k] == o.db.scheduled[..|db.scheduled|][k];
        } else {
          assert o.db.messages[m].conversation == o.db.scheduled[k].conversation;
        }
      }
    }
  }

  /**
   * In such a store every due row raises: the latest message of its
   * conversation is INCOMING and has no timestamp. The sweep stops at the first
   * due row and changes nothing.
   */
  lemma SweepOnIngestedOnly(db: Db, now: Time, send: Transport, excludeCanceled: bool)
    requires References(db) && IngestedOnly(db)
    ensures var o := Sweep(db, now, send, excludeCanceled);
      && o.db == db
      && (o.failure == Some(TypeError) <==> exists k :: 0 <= k < |db.scheduled| && IsDue(db.scheduled[k], now, excludeCanceled))
      && (o.failure.None? || o.failure == Some(TypeError))
  {
    var ks := DueRows(db.scheduled, now, excludeCanceled);
    if |ks| > 0 {
      var k := ks[0];
      var row := db.scheduled[k];
      var i :| 0 <= i < |db.messages| && db.messages[i].conversation == row.conversation;
      assert LatestIndex(db.messages, row.conversation).Some?;
      assert Decide(db.messages, row) == Raise;
      assert k in ks;
    } else {
      assert forall k :: 0 <= k < |db.scheduled| ==> !IsDue(db.scheduled[k], now, excludeCanceled);
    }
  }

  /** In such a store, one due row is enough for the sweep to raise without a change. */
  lemma DueRowRaises(db: Db, k: nat, now: Time, send: Transport)
    requires References(db) && IngestedOnly(db)
    requires k < |db.scheduled| && IsDue(db.scheduled[k], now, false)
    ensures Sweep(db, now, send, false) == Outcome(db, Some(TypeError))
  {
    SweepOnIngestedOnly(db, now, send, false);
  }

  /** The calls the surrounding scheduler makes: an inbound mail, or a sweep. */
  datatype Event =
    | Inbound(details: Option<Gmail.MessageDetails>, now: Time, replies: Replies)
    | Tick(now: Time, send: Transport)

  /** The store after a run of events from `db`. */
  function Run(db: Db, events: seq<Event>): (r: Db)
    requires Valid(db)
    ensures Valid(r)
    decreases |events|
  {
    if |events| == 0 then db
    else match events[0]
      case Inbound(d, now, replies) =>
        IngestKeepsValid(db, d, now, replies);
        Run(Ingest(db, d, now, replies).db, events[1..])
      case Tick(now, send) =>
        SweepKeepsValid(db, now, send, false);
        Run(Sweep(db, now, send, false).db, events[1..])
  }

  ghost predicate AllPending(db: Db)
  {
    forall k :: 0 <= k < |db.scheduled| ==> !db.scheduled[k].sent && !db.scheduled[k].canceled
  }

  /** Ingestion adds only pending rows, and leaves the others as they were. */
  lemma IngestKeepsAllPending(db: Db, details: Option<Gmail.MessageDetails>, now: Time, replies: Replies)
    requires AllPending(db)
    ensures AllPending(Ingest(db, details, now, replies).db)
  {
    IngestAddsMessageAndTwoRows(db, details, now, replies);
    var db1 := Ingest(db, details, now, replies).db;
    forall k | 0 <= k < |db1.scheduled| ensures !db1.scheduled[k].sent && !db1.scheduled[k].canceled {
      if k < |db.scheduled| && Ingest(db, details, now, replies).failure.None? {
        assert db1.scheduled[k] == db1.scheduled[..|db.scheduled|][k];
      }
    }
  }

  /**
   * Starting from an empty store, no run of ingestions and sweeps ever sends
   * or cancels anything: the messages the processor stores have no timestamp,
   * so every sweep that finds a due row raises on its first one.
   */
  lemma {:induction false} NothingEverLeavesPending(db: Db, events: seq<Event>)
    requires Valid(db) && IngestedOnly(db) && AllPending(db)
    ensures IngestedOnly(Run(db, events)) && AllPending(Run(db, events))
    decreases |events|
  {
    if |events| > 0 {
      match events[0]
      case Inbound(d, now, replies) =>
        IngestKeepsIngestedOnly(db, d, now, replies);
        IngestKeepsValid(db, d, now, replies);
        IngestKeepsAllPending(db, d, now, replies);
        var db1 := Ingest(db, d, now, replies).db;
        NothingEverLeavesPending(db1, events[1..]);
      case Tick(now, send) =>
        SweepOnIngestedOnly(db, now, send, false);
        SweepKeepsValid(db, now, send, false);
        NothingEverLeavesPending(Sweep(db, now, send, false).db, events[1..]);
    }
  }
}
