/**
 * The conversation store: the four Django models of conversation/models.py as
 * records, the store that holds them, its uniqueness keys and foreign keys,
 * and `Message.__str__`.
 *
 * Every record is identified by its position in its table: rows are never
 * deleted, so a position is as stable as Django's auto-incremented primary key.
 * Times are whole minutes.
 */
module Models {
  import opened Wrappers

  type Time = int

  /** The `choices` of `Message.message_type`. */
  datatype MessageType = Incoming | Outgoing | Draft

  /** The string stored in the `message_type` column. */
  function MessageTypeCode(t: MessageType): (code: string)
    ensures |code| <= 10
  {
    match t
    case Incoming => "INCOMING"
    case Outgoing => "OUTGOING"
    case Draft => "DRAFT"
  }

  /** Reads a `message_type` column back; a string outside the choices is refused. */
  function ParseMessageType(code: string): (t: Option<MessageType>)
    ensures t.Some? ==> MessageTypeCode(t.value) == code
  {
    if code == "INCOMING" then Some(Incoming)
    else if code == "OUTGOING" then Some(Outgoing)
    else if code == "DRAFT" then Some(Draft)
    else None
  }

  /** Every message type survives a trip through its column. */
  lemma MessageTypeRoundTrip(t: MessageType)
    ensures ParseMessageType(MessageTypeCode(t)) == Some(t)
  {
    match t
    case Incoming =>
    case Outgoing =>
    case Draft =>
      assert "DRAFT" != "INCOMING" && "DRAFT" != "OUTGOING";
  }

  datatype Contact = Contact(email: string, name: string, createdAt: Time, lastContact: Time)

  /** `contact` is the position of the owning Contact. */
  datatype Conversation = Conversation(contact: nat, threadId: string, lastUpdated: Time)

  /** `sender`, `receiver` and `timestamp` are nullable columns. */
  datatype Message = Message(
    conversation: nat,
    messageId: string,
    messageType: MessageType,
    subject: string,
    content: string,
    sender: Option<string>,
    receiver: Option<string>,
    timestamp: Option<Time>)

  datatype ScheduledMessage = ScheduledMessage(
    conversation: nat,
    draftContent: string,
    draftSubject: string,
    createdAt: Time,
    scheduledSendTime: Time,
    sent: bool,
    canceled: bool)

  /** `ScheduledMessage.objects.create` without `sent` or `canceled`: both take their defaults. */
  function NewScheduledMessage(conversation: nat, content: string, subject: string,
                               createdAt: Time, sendTime: Time): (r: ScheduledMessage)
    ensures !r.sent && !r.canceled
    ensures r.conversation == conversation && r.createdAt == createdAt
    ensures r.draftContent == content && r.draftSubject == subject && r.scheduledSendTime == sendTime
  {
    ScheduledMessage(conversation, content, subject, createdAt, sendTime, false, false)
  }

  /** The whole database: one sequence per table. */
  datatype Db = Db(
    contacts: seq<Contact>,
    conversations: seq<Conversation>,
    messages: seq<Message>,
    scheduled: seq<ScheduledMessage>)

  /** The foreign keys: every reference names an existing row. */
  ghost predicate References(db: Db) {
    && (forall c :: 0 <= c < |db.conversations| ==> db.conversations[c].contact < |db.contacts|)
    && (forall i :: 0 <= i < |db.messages| ==> db.messages[i].conversation < |db.conversations|)
    && (forall k :: 0 <= k < |db.scheduled| ==> db.scheduled[k].conversation < |db.conversations|)
  }

  ghost predicate UniqueEmails(cs: seq<Contact>) {
    forall i, j :: 0 <= i < j < |cs| ==> cs[i].email != cs[j].email
  }

  ghost predicate UniqueThreadIds(vs: seq<Conversation>) {
    forall i, j :: 0 <= i < j < |vs| ==> vs[i].threadId != vs[j].threadId
  }

  ghost predicate UniqueMessageIds(ms: seq<Message>) {
    forall i, j :: 0 <= i < j < |ms| ==> ms[i].messageId != ms[j].messageId
  }

  /** What the schema guarantees: the three `unique=True` columns and the foreign keys. */
  ghost predicate Valid(db: Db) {
    && References(db)
    && UniqueEmails(db.contacts)
    && UniqueThreadIds(db.conversations)
    && UniqueMessageIds(db.messages)
  }

  /** The position of the Contact with this email, as `Contact.objects.get(email=...)`. */
  function FindContact(cs: seq<Contact>, email: string): (r: Option<nat>)
    ensures r.Some? ==> r.value < |cs| && cs[r.value].email == email
    ensures r.None? <==> forall i :: 0 <= i < |cs| ==> cs[i].email != email
  {
    if |cs| == 0 then None
    else if cs[|cs| - 1].email == email then Some(|cs| - 1)
    else FindContact(cs[..|cs| - 1], email)
  }

  /** The position of the Conversation with this thread id. */
  function FindConversation(vs: seq<Conversation>, threadId: string): (r: Option<nat>)
    ensures r.Some? ==> r.value < |vs| && vs[r.value].threadId == threadId
    ensures r.None? <==> forall i :: 0 <= i < |vs| ==> vs[i].threadId != threadId
  {
    if |vs| == 0 then None
    else if vs[|vs| - 1].threadId == threadId then Some(|vs| - 1)
    else FindConversation(vs[..|vs| - 1], threadId)
  }

  /** Whether a Message with this id is already stored: an insert would violate the key. */
  predicate MessageIdTaken(ms: seq<Message>, id: string)
  {
    exists i :: 0 <= i < |ms| && ms[i].messageId == id
  }

  /**
   * The order of timestamps, with a missing timestamp before every real one:
   * the place of NULL in `order_by("-timestamp")` on SQLite, Django's default
   * database. The history sort of latency_determination.py orders by it only
   * when its keys are all of one kind (see `Latency.MixedKeys`).
   */
  predicate KeyLe(a: Option<Time>, b: Option<Time>)
  {
    a.None? || (b.Some? && a.value <= b.value)
  }

  // ---------------------------------------------------------------------------
  // Message.__str__
  // ---------------------------------------------------------------------------

  function DigitChar(d: nat): (c: char)
    requires d < 10
    ensures '0' <= c <= '9' && c as int - '0' as int == d
  {
    ('0' as int + d) as char
  }

  /** The decimal digits of a natural number, most significant first. */
  function NatToString(n: nat): (s: string)
    ensures |s| > 0
    ensures forall i :: 0 <= i < |s| ==> '0' <= s[i] <= '9'
  {
    if n < 10 then [DigitChar(n)] else NatToString(n / 10) + [DigitChar(n % 10)]
  }

  /** Reads decimal digits back into a number. */
  function ParseNat(s: string): nat
    requires forall i :: 0 <= i < |s| ==> '0' <= s[i] <= '9'
  {
    if |s| == 0 then 0 else ParseNat(s[..|s| - 1]) * 10 + (s[|s| - 1] as int - '0' as int)
  }

  /** The rendering of a number is faithful: it reads back as the same number. */
  lemma {:induction false} NatToStringRoundTrip(n: nat)
    ensures ParseNat(NatToString(n)) == n
  {
    var s := NatToString(n);
    if n >= 10 {
      assert s[..|s| - 1] == NatToString(n / 10);
      NatToStringRoundTrip(n / 10);
    } else {
      assert s[..|s| - 1] == [];
    }
  }

  /** An instant, rendered for the f-string; the model's times are minutes, not datetimes. */
  function TimeString(t: Time): string
  {
    if t < 0 then "-" + NatToString(-t) else NatToString(t)
  }

  /** How an f-string shows a nullable column: Python prints `None` for a missing value. */
  function OptString(o: Option<string>): string
  {
    match o
    case Some(s) => s
    case None => "None"
  }

  function OptTimeString(o: Option<Time>): string
  {
    match o
    case Some(t) => TimeString(t)
    case None => "None"
  }

  /** `Message.__str__`: the five labelled fields, each on its own line, then a blank line. */
  function MessageString(m: Message): (s: string)
  {
    "timestamp:" + OptTimeString(m.timestamp)
    + "\nfrom:" + OptString(m.sender)
    + "\nto:" + OptString(m.receiver)
    + "\nsubject:" + m.subject
    + "\ncontent: " + m.content + "\n\n"
  }

  /** `t` occurs in `s` starting at position `i`. */
  ghost predicate OccursAt(s: string, t: string, i: nat)
  {
    i + |t| <= |s| && s[i..i + |t|] == t
  }

  /** `t` occurs somewhere inside `s`: Python's `t in s`. */
  ghost predicate Contains(s: string, t: string)
  {
    exists i: nat :: OccursAt(s, t, i)
  }

  lemma ContainsAt(s: string, t: string, a: string, b: string)
    requires s == a + t + b
    ensures Contains(s, t)
  {
    assert OccursAt(s, t, |a|);
  }

  /** What `Message.__str__` prints before the `from:` line, and after each later label. */
  function StringHead(m: Message): string { "timestamp:" + OptTimeString(m.timestamp) + "\n" }
  function StringTail(m: Message): string { "\nsubject:" + m.subject + "\ncontent: " + m.content + "\n\n" }

  lemma MessageStringSplit(m: Message)
    ensures MessageString(m)
         == StringHead(m) + ("from:" + OptString(m.sender)) + ("\nto:" + OptString(m.receiver)) + StringTail(m)
  {
  }

  lemma MessageStringFrom(m: Message)
    ensures Contains(MessageString(m), "from:" + OptString(m.sender))
  {
    var fr, rest := "from:" + OptString(m.sender), "\nto:" + OptString(m.receiver) + StringTail(m);
    MessageStringSplit(m);
    assert MessageString(m) == StringHead(m) + fr + rest;
    ContainsAt(MessageString(m), fr, StringHead(m), rest);
  }

  lemma MessageStringTo(m: Message)
    ensures Contains(MessageString(m), "to:" + OptString(m.receiver))
  {
    var to := "to:" + OptString(m.receiver);
    var front := StringHead(m) + ("from:" + OptString(m.sender)) + "\n";
    MessageStringSplit(m);
    assert "\nto:" + OptString(m.receiver) == "\n" + to;
    assert MessageString(m) == front + to + StringTail(m);
    ContainsAt(MessageString(m), to, front, StringTail(m));
  }

  lemma MessageStringSubject(m: Message)
    ensures Contains(MessageString(m), "subject:" + m.subject)
  {
    var sub, rest := "subject:" + m.subject, "\ncontent: " + m.content + "\n\n";
    var front := StringHead(m) + ("from:" + OptString(m.sender)) + ("\nto:" + OptString(m.receiver)) + "\n";
    MessageStringSplit(m);
    assert StringTail(m) == "\n" + sub + rest;
    assert MessageString(m) == front + sub + rest;
    ContainsAt(MessageString(m), sub, front, rest);
  }

  /**
   * The string form shows every field under its label: it begins with
   * `timestamp:`, and it holds `from:<sender>`, `to:<receiver>` and
   * `subject:<subject>`.
   */
  lemma MessageStringFields(m: Message)
    ensures |MessageString(m)| >= 10 && MessageString(m)[..10] == "timestamp:"
    ensures Contains(MessageString(m), "from:" + OptString(m.sender))
    ensures Contains(MessageString(m), "to:" + OptString(m.receiver))
    ensures Contains(MessageString(m), "subject:" + m.subject)
  {
    MessageStringSplit(m);
    assert MessageString(m)[..10] == StringHead(m)[..10];
    MessageStringFrom(m);
    MessageStringTo(m);
    MessageStringSubject(m);
  }

  /**
   * A message sent by test@example.com to support@company.com, as in the
   * latency test: its string form shows the text that test looks for.
   */
  lemma TestMessageString(m: Message)
    requires m.sender == Some("test@example.com") && m.receiver == Some("support@company.com")
    ensures Contains(MessageString(m), "timestamp:")
    ensures Contains(MessageString(m), "from:test@example.com")
    ensures Contains(MessageString(m), "to:support@company.com")
  {
    MessageStringFields(m);
    var s := MessageString(m);
    assert OccursAt(s, "timestamp:", 0);
    FromLabel();
    ToLabel();
  }

  lemma FromLabel() ensures "from:" + OptString(Some("test@example.com")) == "from:test@example.com" {}
  lemma ToLabel() ensures "to:" + OptString(Some("support@company.com")) == "to:support@company.com" {}
}
