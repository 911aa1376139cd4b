# Casy deferred-reply scheduler, modelled in Dafny

Casy answers e-mail with human-like delay. A mail fetched from Gmail is
_ingested_:
- its sender becomes a Contact and its Gmail thread a Conversation;
- the mail is stored as an INCOMING Message;
- two ScheduledMessage rows are queued: the reply, due `latency_minutes` from
  now, and a follow-up at a time the NLP service chooses.

A periodic _sweep_ takes every row that is due and not yet sent. It cancels the
row if the conversation's latest message is an INCOMING one newer than the row.
Otherwise it sends the row through Gmail, records an OUTGOING Message and marks
the row sent.

This project models that scheduler and the store it works on, and proves what
they do. It also models three smaller pieces:
- the arithmetic and fallback of the latency agent;
- the chronological history the agent builds from a conversation;
- the pure parts of the Gmail service: the search for the plain-text body, the
  header map and the request bodies.

| file | module | contents |
|---|---|---|
| `wrappers.dfy` | `Wrappers` | `Option` |
| `models.dfy` | `Models` | the four records, the store `Db`, its keys (`Valid`), `Message.__str__` |
| `latency.dfy` | `Latency` | business hours, weekend, total minutes, fallback, history |
| `gmail.dfy` | `Gmail` | `_get_message_body`, header map, message details, request bodies |
| `processor.dfy` | `EmailProcessor` | `Ingest` and `Sweep` as functions of the store; class `Store` whose methods run them in place |
| `properties.dfy` | `ProcessorProperties` | what ingestion and the sweep guarantee |

Modelling choices:
- Times are whole minutes, and `now` is a parameter.
- A record is identified by its position in its table. Rows are never deleted.
- The collaborators are parameters:
  - `details`: what `get_message_details` returned;
  - `replies`: what the NLP service answered;
  - `send`: the Gmail transport, any function from (number of stored messages,
    to, subject, body, thread id) to an id. Every recorded send stores one more
    message, so no two recorded calls of a run receive the same number, and a
    transport can give each call an id of its own, as Gmail does
    (`ProcessorProperties.SweepWithDistinctIds`);
  - `decode`: base64 and UTF-8 decoding.
- `order_by("-timestamp").first()` places a missing timestamp below every real
  one, as SQLite (Django's default database) does. Among equal timestamps the
  earliest stored message is taken.
- Time-zone support is on (`USE_TZ = True`, as in Django's project template),
  so stored timestamps are aware datetimes, as the latency test builds them
  with `timezone.now()`. The history sort's key for a message without a
  timestamp is the naive `datetime.min`, and Python refuses to order it against
  an aware datetime. The sort therefore raises TypeError exactly when a
  conversation holds messages both with and without a timestamp
  (`Latency.MixedKeys`). It orders them only when all keys are of one kind.
- An exception ends the call, and the saves made before it are kept.
  `Outcome.failure` names the exception:
  - `KeyError` when the details have no message;
  - `IntegrityError` when an insert repeats a `message_id`;
  - `TypeError` when `None > datetime` is evaluated.

Three behaviours of the code are easy to miss:
- **A failed send records `""` as the id.** A failed send, or any send, is
  recorded and the row is marked sent only when the returned id is not already
  in the table. `message_id` is unique, so a second `""` raises an
  IntegrityError and the sweep stops with that row unsent
  (`ProcessorProperties.RowDispatch`).
- **Cancelled rows are re-examined.** The filter does not exclude cancelled
  rows. A cancelled row is examined again on every later sweep and can end both
  sent and cancelled (`ProcessorProperties.CancelledRowLaterSent`). A filter
  that also requires `canceled = False` keeps the two flags exclusive
  (`ProcessorProperties.GuardedSweepExclusive`).
- **The processor's own messages have no timestamp.** Neither ingestion nor
  the sweep sets `timestamp`, so in a store written only by the processor the
  latest message of a conversation is an INCOMING one without a timestamp.
  Every due row then reaches `None > created_at` and raises:
  - the first sweep that finds a due row stops on it and changes nothing;
  - from an empty store, no run of ingestions and sweeps ever sends or cancels
    a row (`ProcessorProperties.NothingEverLeavesPending`);
  - a single due row is enough for the sweep to raise; the reply to the first
    mail of a new thread, due at `now + latency_minutes`, is such a row
    (`ProcessorProperties.DueRowRaises`, `ProcessorProperties.IngestAddsMessageAndTwoRows`).

  Rows are sent or cancelled only when some other writer has stored messages:
  timestamped ones, as the latency test does, or, under the tie rule of
  `EmailProcessor.LatestIndex`, an untimed message that is not INCOMING,
  stored before the ingested one. In a conversation that holds timestamped
  messages beside the processor's untimed ones, the latency agent's history
  sort raises, and the agent returns its fallback
  (`Latency.MixedConversationFallsBack`).

## Model

| member | source | states |
|---|---|---|
| Models.MessageTypeCode | conversation/models.py:25-35 | the column value of each message type fits `max_length=10` |
| Models.ParseMessageType | conversation/models.py:25-35 | a value read back from the column is one of the three choices, and reads as the code it came from |
| Models.MessageTypeRoundTrip | conversation/models.py:25-35 | INCOMING, OUTGOING and DRAFT each survive a trip through the column |
| Models.Valid | conversation/models.py:5-53 | the schema: unique contact emails, thread ids and message ids, and every foreign key names a stored record; preserved by `EmailProcessor.IngestKeepsValid` and `EmailProcessor.SweepKeepsValid` |
| Models.NewScheduledMessage | conversation/models.py:46-53 | a new row starts with `sent` and `canceled` both false, and with the given conversation, content, subject, creation and send times |
| Models.FindContact | conversation/services/email_processor.py:32-35 | the lookup of `get_or_create` finds a Contact with that email, and finds none exactly when none exists |
| Models.FindConversation | conversation/services/email_processor.py:38-40 | the lookup finds a Conversation with that thread id, and finds none exactly when none exists |
| Models.MessageString | conversation/models.py:42-43 | `Message.__str__`; its fields are stated by `Models.MessageStringFields` |
| Models.NatToStringRoundTrip | conversation/models.py:43 | the decimal rendering of a time reads back as the same number |
| Models.MessageStringFields | conversation/models.py:42-43 | the string form starts with `timestamp:` and holds `from:`, `to:` and `subject:` followed by the sender, receiver and subject (`None` for a missing one) |
| Models.TestMessageString | conversation/tests.py:86-99 | the string form of a message from `test@example.com` to `support@company.com` holds `timestamp:`, `from:test@example.com` and `to:support@company.com`, as the latency test expects of the prompt |
| Latency.BusinessHours | conversation/services/latency_determination.py:71-75 | the business-hours flag; stated by `Latency.DefaultBusinessHours` |
| Latency.Weekend | conversation/services/latency_determination.py:76 | the weekend flag; stated by `Latency.WeekendDays` |
| Latency.DefaultBusinessHours | conversation/services/latency_determination.py:50-75 | with the default configuration (9, 17) the business hours of a day are exactly 9 through 16 |
| Latency.WeekendDays | conversation/services/latency_determination.py:76 | of the weekdays 0 to 6 exactly 5 and 6 are the weekend |
| Latency.TotalMinutes | conversation/services/latency_determination.py:118-120 | the delay formula; `Latency.TotalMinutesSplit` proves it a mixed-radix numeral with `Latency.SplitMinutes` as inverse |
| Latency.SplitMinutes | conversation/services/latency_determination.py:118-120 | a number of minutes splits into days, fewer than 24 hours, and fewer than 60 minutes |
| Latency.TotalMinutesSplit | conversation/services/latency_determination.py:118-120 | days, hours and minutes in minutes form a mixed-radix numeral: the total splits back into the same three numbers, and every total is the total of its split |
| Latency.DetermineLatency | conversation/services/latency_determination.py:78-126 | `determine_latency`'s result; its cases are stated by `Latency.DetermineLatencyCases` |
| Latency.DetermineLatencyCases | conversation/services/latency_determination.py:115-126 | the delay is never negative; a validated answer gives its urgent and stuck flags and `days*24*60 + hours*60 + minutes`; a failed call or an answer that fails validation gives `(False, False, m)` with `30 <= m <= 60` |
| Latency.MockedAnswer | conversation/tests.py:58-78 | the mocked answer of 0 days, 0 hours, 5 minutes, urgent and not stuck gives `(True, False, 5)` |
| Latency.ConversationMessages | conversation/services/latency_determination.py:83 | a message is taken exactly when it is stored and belongs to the conversation, and as often as it is stored |
| Latency.Insert | conversation/services/latency_determination.py:86-89 | inserting into a sorted list keeps it sorted and adds exactly that message |
| Latency.SortByTimestamp | conversation/services/latency_determination.py:86-89 | the result is a permutation of the messages in non-decreasing timestamp order; it is the sort of keys of one kind |
| Latency.History | conversation/services/latency_determination.py:91-92 | the concatenated string forms; `Latency.HistoryContains` and `Latency.BuildHistory` state what it holds and that the loop builds it |
| Latency.HistoryContains | conversation/services/latency_determination.py:91-92 | the history holds the string form of each of its messages |
| Latency.BuildHistory | conversation/services/latency_determination.py:80-92 | the history raises exactly when the keys are mixed; otherwise the accumulating loop yields the string forms of the sorted messages, concatenated in order |
| Latency.AppendAll | conversation/services/latency_determination.py:91-92 | the accumulating loop yields the string forms of the messages, concatenated in order |
| Latency.MixedKeys | conversation/services/latency_determination.py:86-89 | the sort's keys cannot be ordered: a missing timestamp's naive `datetime.min` beside an aware timestamp; `Latency.BuildHistory` raises exactly then |
| Latency.DetermineLatencyIn | conversation/services/latency_determination.py:78-126 | the guarded block for a message of a conversation: the fallback when the history sort raises; stated by `Latency.MixedConversationFallsBack` |
| Latency.BothKindsMixed | conversation/services/latency_determination.py:83-89 | a conversation holding a message without and one with a timestamp hands the sort mixed keys |
| Latency.MixedBothKinds | conversation/services/latency_determination.py:83-89 | mixed keys in the sort come from such a conversation |
| Latency.MixedConversationFallsBack | conversation/services/latency_determination.py:80-126 | such a conversation gets `(False, False, fallback)` whatever the model would answer, and any other conversation what the model's answer gives |
| Latency.ConversationHistory | conversation/services/latency_determination.py:83-92 | the sort of a conversation's messages is by timestamp, holds each of its messages as often as it is stored, and gives a history holding the string form of every one of them; it is reached when the keys are not mixed |
| Gmail.GetMessageBody | conversation/services/gmail_service.py:215-238 | `_get_message_body` as a recursive search, KeyErrors included; stated by `Gmail.OwnBodyFirst`, `Gmail.BodyIsEligible` and `Gmail.FindMessageBody` |
| Gmail.ScanParts | conversation/services/gmail_service.py:224-236 | the loop over the parts; stated by `Gmail.SkipParts`, `Gmail.FirstTextPart`, `Gmail.NestedPart`, `Gmail.NothingMatches` and `Gmail.ScanIsEligible` |
| Gmail.FindMessageBody | conversation/services/gmail_service.py:215-238 | the early-returning loop that calls itself on nested parts returns what the recursive search defines |
| Gmail.SkipParts | conversation/services/gmail_service.py:225-236 | parts without a match are stepped over: the scan's result is that of the parts after them |
| Gmail.OwnBodyFirst | conversation/services/gmail_service.py:217-221 | a payload whose own body has data yields the decoding of that data, and its parts are not consulted |
| Gmail.FirstTextPart | conversation/services/gmail_service.py:224-230 | otherwise the first `text/plain` part with data yields the decoding of its data |
| Gmail.NestedPart | conversation/services/gmail_service.py:232-236 | a part with sub-parts is searched; a non-empty result is returned, and an empty one lets the scan go on |
| Gmail.LeafNotTextPlain | conversation/services/gmail_service.py:225-236 | a leaf part that is not `text/plain` is stepped over, whatever data it carries |
| Gmail.NothingMatches | conversation/services/gmail_service.py:238 | when nothing matches, the body is `""` |
| Gmail.BodyIsEligible | conversation/services/gmail_service.py:215-238 | a non-empty body is always the decoding of the payload's own data, of a `text/plain` part's data, or of what a nested part yields |
| Gmail.ScanIsEligible | conversation/services/gmail_service.py:224-236 | the same, for the scan over the parts from a given position on |
| Gmail.LowerString | conversation/services/gmail_service.py:190 | `str.lower` on ASCII letters; stated by `Gmail.LowerStringIdempotent` |
| Gmail.HeadersOf | conversation/services/gmail_service.py:188-190 | the header dictionary; stated by `Gmail.HeadersOfKeys`, `Gmail.HeadersOfLast` and `Gmail.BuildHeaders` |
| Gmail.LowerStringIdempotent | conversation/services/gmail_service.py:190 | lowering a lowered name changes nothing, so each key of the header map is lower case |
| Gmail.HeadersOfKeys | conversation/services/gmail_service.py:188-190 | the keys of the header map are exactly the lowered header names |
| Gmail.HeadersOfLast | conversation/services/gmail_service.py:188-190 | each key maps to the value of the last header with that name: a later duplicate overwrites an earlier one |
| Gmail.BuildHeaders | conversation/services/gmail_service.py:188-190 | the loop writing into the dictionary builds the header map |
| Gmail.HeaderField | conversation/services/gmail_service.py:203-206 | `headers.get(key, "")` is the last matching header's value, and `""` when there is none |
| Gmail.DetailsOf | conversation/services/gmail_service.py:200-209 | the details dictionary; its fields are stated by `Gmail.DetailsFields` |
| Gmail.DetailsFields | conversation/services/gmail_service.py:200-209 | subject, from, to and date are the values of the last `Subject`, `From`, `To` and `Date` headers, whatever their case, or `""` without one |
| Gmail.SendBody | conversation/services/gmail_service.py:363-368 | the body carries the raw message, and `threadId` exactly when a non-empty thread id is given |
| Gmail.DraftBody | conversation/services/gmail_service.py:268-273 | the draft body is a `message` object carrying the raw message, and `threadId` exactly when a non-empty thread id is given |
| EmailProcessor.IncomingMessage | conversation/services/email_processor.py:43-49 | the saved INCOMING message; its fields are stated by `ProcessorProperties.IngestAddsMessageAndTwoRows` |
| EmailProcessor.ReplyRow | conversation/services/email_processor.py:70-75 | the reply row; stated by `ProcessorProperties.IngestAddsMessageAndTwoRows` |
| EmailProcessor.FollowupRow | conversation/services/email_processor.py:78-87 | the follow-up row; stated by `ProcessorProperties.IngestAddsMessageAndTwoRows` |
| EmailProcessor.Ingest | conversation/services/email_processor.py:27-87 | `_process_single_email` on the store; stated by `ProcessorProperties.IngestAddsMessageAndTwoRows`, `IngestFindOrCreate`, `DuplicateMessageId`, `IngestTwice` and `EmailProcessor.IngestKeepsValid` |
| EmailProcessor.GetOrCreateContact | conversation/services/email_processor.py:32-35 | returns a Contact with the sender's email and leaves the other tables alone |
| EmailProcessor.GetOrCreateConversation | conversation/services/email_processor.py:38-40 | returns a Conversation with the thread id and leaves the other tables alone |
| EmailProcessor.IsDue | conversation/services/email_processor.py:92-94 | the filter of the queryset; `EmailProcessor.DueRows` takes exactly the rows it admits |
| EmailProcessor.DueRows | conversation/services/email_processor.py:92-94 | a row is taken exactly when `scheduled_send_time <= now` and it is not sent, in table order |
| EmailProcessor.LatestIndex | conversation/services/email_processor.py:99-103 | none exactly when the conversation has no message; otherwise a message of the conversation whose timestamp no other message of it exceeds, and no earlier one has the same |
| EmailProcessor.Decide | conversation/services/email_processor.py:105-113 | the cancellation test; its three outcomes are stated by `ProcessorProperties.RowCancellation` and `ProcessorProperties.DecideCancelStays` |
| EmailProcessor.SendRow | conversation/services/email_processor.py:115-120 | the `send_email` call with the contact's email, the row's subject and body and the thread id; stated by `ProcessorProperties.RowDispatch` |
| EmailProcessor.OutgoingMessage | conversation/services/email_processor.py:123-129 | the saved OUTGOING message; its fields are stated by `ProcessorProperties.RowDispatch` |
| EmailProcessor.ProcessRow | conversation/services/email_processor.py:96-133 | one row keeps the foreign keys, the contacts, the conversations and the number of rows |
| EmailProcessor.RunRows | conversation/services/email_processor.py:96-133 | the loop keeps the foreign keys, the contacts, the conversations and the number of rows |
| EmailProcessor.ProcessRowKeepsValid | conversation/services/email_processor.py:123-129 | a row's step keeps the schema's keys: an OUTGOING message is stored only under a new id |
| EmailProcessor.IngestKeepsValid | conversation/services/email_processor.py:32-49 | ingestion keeps the unique emails, thread ids and message ids and the foreign keys |
| EmailProcessor.Sweep | conversation/services/email_processor.py:89-133 | `send_scheduled_messages` on the store; stated by `ProcessorProperties.SweepFrame`, `SweepTwice`, `SweepWithDistinctIds`, `GuardedSweepExclusive` and `EmailProcessor.SweepKeepsValid` |
| EmailProcessor.RunRowsKeepsValid | conversation/services/email_processor.py:96-133 | the loop keeps the schema's keys |
| EmailProcessor.SweepKeepsValid | conversation/services/email_processor.py:89-133 | the sweep keeps the schema's keys |
| EmailProcessor.Store.constructor | conversation/models.py:5-53 | the empty store satisfies the schema |
| EmailProcessor.Store.ProcessSingleEmail | conversation/services/email_processor.py:27-87 | the in-place get-or-create and inserts end in the store, and with the exception, that `Ingest` gives, and keep the schema |
| EmailProcessor.Store.SweepRow | conversation/services/email_processor.py:97-133 | the loop body, with the source's branches, ends in the state, and with the exception, that `ProcessRow` gives |
| EmailProcessor.RunRowsStep | conversation/services/email_processor.py:96-133 | a row's step either ends the loop with its exception or hands its state to the remaining rows |
| EmailProcessor.Store.SendScheduledMessages | conversation/services/email_processor.py:89-133 | the loop over the due rows, stopping at the first exception, ends in the store, and with the exception, that `Sweep` gives, and keeps the schema |
| ProcessorProperties.IngestAddsMessageAndTwoRows | conversation/services/email_processor.py:43-87 | ingestion succeeds exactly when the details are present and the id is new; it then appends one INCOMING message and two pending rows in the mail's conversation: the reply (`"Re: " + subject`, due `now + latency_minutes`) and the follow-up (the supplied time, subject and body) |
| ProcessorProperties.IngestFindOrCreate | conversation/services/email_processor.py:31-40 | an existing Contact or Conversation is reused unchanged, so a conversation keeps its contact; otherwise one is appended, the new conversation owned by the sender's contact |
| ProcessorProperties.DuplicateMessageId | conversation/services/email_processor.py:43-49 | a repeated inbound `message_id` raises an IntegrityError before any message or row is added |
| ProcessorProperties.IngestTwice | conversation/services/email_processor.py:32-49 | ingesting the same mail again leaves the store exactly as it was, with an IntegrityError |
| ProcessorProperties.RowCancellation | conversation/services/email_processor.py:99-113 | a due row is cancelled, with `sent` unchanged and no message added, exactly when the latest message is INCOMING with a timestamp after `created_at`; it raises exactly when that message is INCOMING without a timestamp, and a raise changes nothing |
| ProcessorProperties.RowDispatch | conversation/services/email_processor.py:115-133 | a row that is not cancelled gets one OUTGOING message with its subject and content under the returned id, whatever it is, and is marked sent; an id already stored raises instead |
| ProcessorProperties.FailedSendMarksSent | conversation/services/email_processor.py:115-133 | a send that returns `""` still marks the row sent and stores a message with id `""`, the first time |
| ProcessorProperties.ProcessRowStep | conversation/services/email_processor.py:105-133 | one row's step changes only that row, by cancelling or sending it, and only appends OUTGOING messages without a timestamp |
| ProcessorProperties.RunRowsFrame | conversation/services/email_processor.py:96-133 | the loop changes only the rows it visits, each at most by being cancelled or sent, and only appends OUTGOING messages without a timestamp |
| ProcessorProperties.SweepFrame | conversation/services/email_processor.py:91-94 | the sweep leaves contacts, conversations and every row that is not due unchanged, and only cancels or sends rows |
| ProcessorProperties.LatestAppendUntimed | conversation/services/email_processor.py:99-103 | a message stored without a timestamp never becomes the latest of a conversation that had one |
| ProcessorProperties.LatestUnchanged | conversation/services/email_processor.py:99-103 | neither do any number of them |
| ProcessorProperties.DecideCancelStays | conversation/services/email_processor.py:105-113 | a row that is cancelled would still be cancelled after the sweep's own messages are appended |
| ProcessorProperties.RunRowsSettles | conversation/services/email_processor.py:96-133 | after a loop that completed, every visited row is sent, or is cancelled and would be cancelled again |
| ProcessorProperties.RunRowsStill | conversation/services/email_processor.py:96-133 | a loop whose every row's step changes nothing changes nothing |
| ProcessorProperties.SweepTwice | conversation/services/email_processor.py:92-133 | once a sweep has completed, a second sweep at the same `now`, with any transport, changes nothing: it sends nothing, and no row is sent again |
| ProcessorProperties.RunRowsExclusive | conversation/services/email_processor.py:105-133 | a loop over pending rows never makes a row both sent and cancelled |
| ProcessorProperties.GuardedSweepExclusive | conversation/services/email_processor.py:92-94 | with the filter also requiring `canceled = False`, no row ever becomes both sent and cancelled |
| ProcessorProperties.RunRowsDistinctIds | conversation/services/email_processor.py:115-129 | when no call of the transport repeats an id, no insert of the loop repeats a `message_id` |
| ProcessorProperties.SweepWithDistinctIds | conversation/services/email_processor.py:89-133 | with such a transport the sweep never raises an IntegrityError, and a sweep that completes leaves every due row sent or cancelled |
| ProcessorProperties.NumberedIdsDistinct | conversation/services/gmail_service.py:371-378 | a transport numbering its ids `sent-<n>` never repeats one |
| ProcessorProperties.IdenticalRowsBothSent | conversation/services/email_processor.py:96-133 | two due rows with the same recipient, subject and body, after a timestamped OUTGOING message, are both sent and both recorded |
| ProcessorProperties.FirstSweepCancels | conversation/services/email_processor.py:105-113 | a row created before the conversation's newest INCOMING message is cancelled |
| ProcessorProperties.LaterSweepSends | conversation/services/email_processor.py:115-133 | the same cancelled row, due again after a newer OUTGOING message, is sent |
| ProcessorProperties.CancelledRowLaterSent | conversation/services/email_processor.py:92-94 | because the filter ignores `canceled`, a cancelled row can be sent later and end both sent and cancelled |
| ProcessorProperties.IngestKeepsIngestedOnly | conversation/services/email_processor.py:43-49 | ingestion stores only INCOMING messages without a timestamp, and every row's conversation has a message |
| ProcessorProperties.SweepOnIngestedOnly | conversation/services/email_processor.py:105-109 | in such a store the sweep changes nothing, and raises exactly when some row is due |
| ProcessorProperties.DueRowRaises | conversation/services/email_processor.py:105-109 | in such a store a single due row makes the sweep raise with the store unchanged |
| ProcessorProperties.IngestKeepsAllPending | conversation/services/email_processor.py:70-87 | ingestion adds only pending rows and leaves the others as they were |
| ProcessorProperties.NothingEverLeavesPending | conversation/services/email_processor.py:89-133 | from an empty store, no run of ingestions and sweeps sends or cancels any row |

## Left out

- The Gmail API: OAuth and credential handling, and listing, fetching and marking messages. Sending, drafts, `schedule_email` and `get_thread` are left out too. They are network I/O. `send_email` is the parameter `send`, and `get_message_details` is its result `details`.
- The HTTP error paths of `get_message_details`, `create_draft` and `send_email`. An error dictionary is `details = None`, and a failed send is a transport returning `""`. The `timestamp` key of `get_message_details`' dictionary, `datetime.now(timezone.utc).isoformat()`, is left out of `Gmail.DetailsOf`, because nothing in the processor reads it.
- MIME and base64: `MIMEText`, `urlsafe_b64encode` and `urlsafe_b64decode`. They are library codecs. Decoding is the parameter `decode`, `raw` is given, and an exception from decoding is not modelled.
- The language-model call, the prompt file and `prompt.format`. They are an external model and file I/O. The call is `ModelResult`, an answer or a failure.
- `random.randint(30, 60)`, `datetime.now()` and `timezone.now()`. They are parameters. The latency agent's clock is the hour and the weekday the predicates receive.
- The NLP service and the `create_draft` call of ingestion. The service's answers are `Replies`. The draft id is not used by the processor.
- conversation/agent.py. Its random templates are not used by the processor, and its import names a function that latency_determination.py does not define.
- conversation/tasks.py and the management commands. They only construct the processor and call it.
- `process_new_emails`. It is the loop calling ingestion for each unread mail, and a run of `Inbound` events stands for it.
- Exceptions from `send_email` other than HttpError. The transport `send` always returns an id. In the source such an exception escapes the sweep's loop: that row stays unsent and unrecorded, the rows before it keep their saves, and the rows after it are not examined.
- Concurrency and overlapping sweeps. The code runs sequentially and takes no locks.
- Time-zone conversions, `max_length` on columns other than `message_type`, and e-mail format validation. They are persistence details with no behaviour in the modelled logic. The one effect of time-zone support that does matter, the mixed-key raise of the history sort, is modelled.
- `auto_now` on `last_contact` and `last_updated`. Their refresh on each save is not modelled, because every modelled save leaves them at their creation time.
- `Contact.__str__`, `Conversation.__str__` and `ScheduledMessage.__str__`. No modelled operation uses them.
- `Message.__str__`'s rendering of a `datetime`. A timestamp is rendered as its number of minutes.
- Latency.SortByTimestamp: the stability of Python's `sorted` (equal keys keep their stored order) is not stated. The contract states a permutation in timestamp order. It is the sort of keys of one kind. With messages both with and without a timestamp the source's `sorted` raises, and that raise is modelled by `Latency.BuildHistory` and `Latency.DetermineLatencyIn`, not by this function.
- Gmail.LowerString: only ASCII letters are lowered, not the full Unicode case mapping of `str.lower`.
- EmailProcessor.Ingest: the NLP service and `create_draft` are taken not to raise: `Replies` is a plain value. In the source they are called at email_processor.py:52-80 after the INCOMING insert, with no `try`, and `create_draft` catches only HttpError. A raise in `generate_response`, `determine_latency`, the send-time computation or `create_draft` (lines 52-62) leaves the message stored and no row. A raise in `determine_followup_time` or `generate_followup_message` (lines 78-80) leaves the message and the reply row, without the follow-up row. The mail was already marked read, so it is not fetched again, and a re-delivery would raise IntegrityError. When both rows are missing the mail is never answered. `ProcessorProperties.IngestTwice` speaks only of a completed ingestion.
- EmailProcessor.DueRows: the rows are taken in table order. The queryset has no `order_by` and `ScheduledMessage` no default ordering, so the database chooses the order, and with it which rows run before an exception stops the loop.
- EmailProcessor.LatestIndex: among messages with equal timestamps, or all without one, the earliest stored is taken. The database does not fix this order.
