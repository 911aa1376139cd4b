/**
 * The arithmetic and bookkeeping around `HumanLatencyAgent.determine_latency`
 * (conversation/services/latency_determination.py): the business-hours and
 * weekend flags, the chronological conversation history handed to the
 * language model, the conversion of its answer to minutes, and the fallback
 * when anything fails. The model call itself is a parameter: its answer, or
 * its failure.
 */
module Latency {
  import opened Wrappers
  import opened Models

  /** `LatencyConfig`: business hours run from `start` (inclusive) to `end` (exclusive). */
  datatype LatencyConfig = LatencyConfig(businessHoursStart: int, businessHoursEnd: int)

  const DefaultConfig := LatencyConfig(9, 17)

  /** The flag shown to the model as "Business hours". */
  predicate BusinessHours(config: LatencyConfig, hour: int)
  {
    config.businessHoursStart <= hour < config.businessHoursEnd
  }

  /** The flag shown to the model as "Weekend": `weekday()` numbers Monday 0 to Sunday 6. */
  predicate Weekend(weekday: int)
  {
    weekday >= 5
  }

  /** Under the default configuration a day has eight business hours, from 9:00 to 16:59. */
  lemma DefaultBusinessHours()
    ensures (set h | 0 <= h < 24 && BusinessHours(DefaultConfig, h)) == {9, 10, 11, 12, 13, 14, 15, 16}
  {
  }

  /** Of the seven weekdays exactly Saturday (5) and Sunday (6) are the weekend. */
  lemma WeekendDays()
    ensures (set d | 0 <= d < 7 && Weekend(d)) == {5, 6}
  {
  }

  /** The structured answer of the model; each duration is validated `ge=0`. */
  datatype LatencyDetermination = LatencyDetermination(
    reasoning: string, days: int, hours: int, minutes: int, urgent: bool, stuck: bool)

  /** Whether the model's answer passes the validation of its fields. */
  predicate Validates(d: LatencyDetermination)
  {
    d.days >= 0 && d.hours >= 0 && d.minutes >= 0
  }

  /**
   * What the guarded block of `determine_latency` obtains: an answer, or
   * `Failed` for any exception raised in it (the prompt file, the model call).
   */
  datatype ModelResult = Answered(answer: LatencyDetermination) | Failed

  /** A delay of `days`, `hours` and `minutes`, all in minutes. */
  function TotalMinutes(days: nat, hours: nat, minutes: nat): (total: nat)
  {
    days * 24 * 60 + hours * 60 + minutes
  }

  /** A number of minutes as whole days, remaining hours and remaining minutes. */
  function SplitMinutes(total: nat): (dhm: (nat, nat, nat))
    ensures dhm.1 < 24 && dhm.2 < 60
  {
    (total / 1440, (total % 1440) / 60, total % 60)
  }

  lemma DivMod(t: int, b: int, q: int, r: int)
    requires b > 0 && 0 <= r < b && t == q * b + r
    ensures t / b == q && t % b == r
  {
    var q', r' := t / b, t % b;
    assert t == q' * b + r';
    if q' > q {
      MulLe(q + 1, q', b);
      assert false;
    } else if q' < q {
      MulLe(q' + 1, q, b);
      assert false;
    }
  }

  lemma MulLe(x: int, y: int, b: int)
    requires x <= y && b >= 0
    ensures x * b <= y * b
  {
  }

  /**
   * Minutes, hours and days are a mixed-radix numeral: a delay with fewer
   * than 24 hours and 60 minutes splits back into the same three numbers, and
   * every total is the total of its split.
   */
  lemma TotalMinutesSplit(days: nat, hours: nat, minutes: nat, total: nat)
    ensures hours < 24 && minutes < 60 ==> SplitMinutes(TotalMinutes(days, hours, minutes)) == (days, hours, minutes)
    ensures var (d, h, m) := SplitMinutes(total); TotalMinutes(d, h, m) == total
  {
    var t := TotalMinutes(days, hours, minutes);
    if hours < 24 && minutes < 60 {
      DivMod(t, 1440, days, hours * 60 + minutes);
      DivMod(t % 1440, 60, hours, minutes);
      assert t == (days * 24 + hours) * 60 + minutes;
      DivMod(t, 60, days * 24 + hours, minutes);
    }
    var r := total % 1440;
    DivMod(r, 60, r / 60, r % 60);
    assert total % 60 == r % 60 by {
      DivMod(total, 60, (total / 1440) * 24 + r / 60, r % 60);
    }
  }

  /**
   * `determine_latency`: the urgent and stuck flags and the delay in minutes
   * from the model's answer, or `(False, False, fallback)` when the block
   * failed; `fallback` is the value drawn by `random.randint(30, 60)`.
   */
  function DetermineLatency(result: ModelResult, fallback: int): (r: (bool, bool, int))
    requires 30 <= fallback <= 60
  {
    match result
    case Answered(d) =>
      if Validates(d) then (d.urgent, d.stuck, TotalMinutes(d.days, d.hours, d.minutes))
      else (false, false, fallback)
    case Failed => (false, false, fallback)
  }

  /**
   * The delay is never negative; an answer that passes validation gives its
   * flags and its total; an answer that fails validation, or a failed call,
   * gives two false flags and a delay between 30 and 60 minutes.
   */
  lemma DetermineLatencyCases(result: ModelResult, fallback: int)
    requires 30 <= fallback <= 60
    ensures DetermineLatency(result, fallback).2 >= 0
    ensures result.Answered? && Validates(result.answer) ==>
      var d := result.answer;
      DetermineLatency(result, fallback) == (d.urgent, d.stuck, d.days * 24 * 60 + d.hours * 60 + d.minutes)
    ensures !(result.Answered? && Validates(result.answer)) ==>
      var (urgent, stuck, m) := DetermineLatency(result, fallback);
      !urgent && !stuck && 30 <= m <= 60
  {
  }

  /** The mocked answer of the latency test: 0 days, 0 hours, 5 minutes, urgent, not stuck. */
  lemma MockedAnswer(reasoning: string, fallback: int)
    requires 30 <= fallback <= 60
    ensures DetermineLatency(Answered(LatencyDetermination(reasoning, 0, 0, 5, true, false)), fallback)
         == (true, false, 5)
  {
  }

  // ---------------------------------------------------------------------------
  // The conversation history
  // ---------------------------------------------------------------------------

  /**
   * `message.conversation.messages.all()`: the messages of the conversation,
   * each as often as it is stored, and no other.
   */
  function ConversationMessages(ms: seq<Message>, conv: nat): (r: seq<Message>)
    ensures forall m :: m in r <==> m in ms && m.conversation == conv
    ensures forall m :: multiset(r)[m] == if m.conversation == conv then multiset(ms)[m] else 0
    ensures |r| <= |ms|
  {
    if |ms| == 0 then []
    else
      var rest := ConversationMessages(ms[..|ms| - 1], conv);
      var last := ms[|ms| - 1];
      assert ms == ms[..|ms| - 1] + [last];
      if last.conversation == conv then rest + [last] else rest
  }

  ghost predicate SortedByTimestamp(ms: seq<Message>)
  {
    forall i, j :: 0 <= i < j < |ms| ==> KeyLe(ms[i].timestamp, ms[j].timestamp)
  }

  /**
   * A sorted list whose elements are those of `init` and `x` stays sorted
   * when `last`, which is not before any element of `init` nor before `x`,
   * is put at its end.
   */
  lemma InsertBelowLast(init: seq<Message>, last: Message, x: Message, front: seq<Message>)
    requires SortedByTimestamp(init + [last]) && !KeyLe(last.timestamp, x.timestamp)
    requires multiset(front) == multiset(init) + multiset{x} && SortedByTimestamp(front)
    ensures SortedByTimestamp(front + [last])
  {
    var s := init + [last];
    forall e | e in front ensures KeyLe(e.timestamp, last.timestamp) {
      assert e in multiset(front);
      if e != x {
        assert e in multiset(init);
        var i :| 0 <= i < |init| && init[i] == e;
        assert s[i] == e && s[|init|] == last;
      }
    }
    var r := front + [last];
    forall i, j | 0 <= i < j < |r| ensures KeyLe(r[i].timestamp, r[j].timestamp) {
      if j == |r| - 1 { assert r[i] in front; } else { assert r[i] == front[i] && r[j] == front[j]; }
    }
  }

  /** Puts `x` after every element whose key is not greater than its own, as a stable sort does. */
  function Insert(s: seq<Message>, x: Message): (r: seq<Message>)
    ensures multiset(r) == multiset(s) + multiset{x}
    ensures SortedByTimestamp(s) ==> SortedByTimestamp(r)
  {
    if |s| == 0 then [x]
    else
      var init, last := s[..|s| - 1], s[|s| - 1];
      assert s == init + [last];
      if KeyLe(last.timestamp, x.timestamp) then s + [x]
      else
        var r := Insert(init, x) + [last];
        assert SortedByTimestamp(s) ==> SortedByTimestamp(r) by {
          if SortedByTimestamp(s) {
            InsertBelowLast(init, last, x, Insert(init, x));
          }
        }
        r
  }

  /** `sorted(messages, key=...)`: insertion of each message in turn. */
  function SortByTimestamp(ms: seq<Message>): (r: seq<Message>)
    ensures multiset(r) == multiset(ms)
    ensures SortedByTimestamp(r)
  {
    if |ms| == 0 then []
    else
      assert ms == ms[..|ms| - 1] + [ms[|ms| - 1]];
      Insert(SortByTimestamp(ms[..|ms| - 1]), ms[|ms| - 1])
  }

  /** The string forms of `ms`, one after the other. */
  function History(ms: seq<Message>): (h: string)
  {
    if |ms| == 0 then "" else History(ms[..|ms| - 1]) + MessageString(ms[|ms| - 1])
  }

  /** A slice that lies inside `a` is the same slice of `a + b`. */
  lemma PrefixSlice(a: string, b: string, i: nat, j: nat)
    requires i <= j <= |a|
    ensures (a + b)[i..j] == a[i..j]
  {
  }

  /** The history holds the string form of each of its messages. */
  lemma {:induction false} HistoryContains(ms: seq<Message>, m: Message)
    requires m in ms
    ensures Contains(History(ms), MessageString(m))
  {
    var init, last := ms[..|ms| - 1], ms[|ms| - 1];
    assert ms == init + [last];
    var h := History(init);
    assert History(ms) == h + MessageString(last);
    if m == last {
      ContainsAt(History(ms), MessageString(m), h, "");
    } else {
      assert m in init;
      HistoryContains(init, m);
      var i: nat :| OccursAt(h, MessageString(m), i);
      PrefixSlice(h, MessageString(last), i, i + |MessageString(m)|);
      assert OccursAt(History(ms), MessageString(m), i);
    }
  }

  /**
   * Whether `sorted` raises on the keys of `ms`. With time-zone support on, a
   * stored timestamp is an aware datetime, while the key of a message without
   * one is the naive `datetime.min`, and Python refuses to order an aware
   * datetime against a naive one. A comparison sort compares every two
   * elements that end up next to each other, and when both kinds are present
   * some such pair is mixed, so the sort raises TypeError exactly then.
   */
  predicate MixedKeys(ms: seq<Message>)
  {
    (exists i :: 0 <= i < |ms| && ms[i].timestamp.None?) && (exists j :: 0 <= j < |ms| && ms[j].timestamp.Some?)
  }

  /**
   * The `conversation_history` loop: the string forms of the messages sorted
   * by timestamp, appended one by one, or `None` when the sort raises.
   */
  method BuildHistory(ms: seq<Message>) returns (history: Option<string>)
    ensures history.None? <==> MixedKeys(ms)
    ensures history.Some? ==> history.value == History(SortByTimestamp(ms))
  {
    if MixedKeys(ms) {
      return None;
    }
    var h := AppendAll(SortByTimestamp(ms));
    history := Some(h);
  }

  /** `for msg in messages_sorted: conversation_history += str(msg)`. */
  method AppendAll(sorted: seq<Message>) returns (h: string)
    ensures h == History(sorted)
  {
    h := "";
    var i := 0;
    while i < |sorted|
      invariant 0 <= i <= |sorted|
      invariant h == History(sorted[..i])
    {
      assert sorted[..i + 1][..i] == sorted[..i];
      h := h + MessageString(sorted[i]);
      i := i + 1;
    }
    assert sorted[..i] == sorted;
  }

  /**
   * `determine_latency` for a message of conversation `conv` of the store
   * `ms`: the guarded block raises, and the fallback is returned, when the
   * history sort raises; otherwise `call` is what the rest of the block
   * obtains from the model.
   */
  function DetermineLatencyIn(ms: seq<Message>, conv: nat, call: ModelResult, fallback: int): (r: (bool, bool, int))
    requires 30 <= fallback <= 60
  {
    if MixedKeys(ConversationMessages(ms, conv)) then (false, false, fallback)
    else DetermineLatency(call, fallback)
  }

  /** Conversation `conv` of `ms` holds a message without a timestamp and one with a timestamp. */
  ghost predicate BothKinds(ms: seq<Message>, conv: nat)
  {
    && (exists i :: 0 <= i < |ms| && ms[i].conversation == conv && ms[i].timestamp.None?)
    && (exists j :: 0 <= j < |ms| && ms[j].conversation == conv && ms[j].timestamp.Some?)
  }

  lemma BothKindsMixed(ms: seq<Message>, conv: nat)
    requires BothKinds(ms, conv)
    ensures MixedKeys(ConversationMessages(ms, conv))
  {
    var r := ConversationMessages(ms, conv);
    var i :| 0 <= i < |ms| && ms[i].conversation == conv && ms[i].timestamp.None?;
    var j :| 0 <= j < |ms| && ms[j].conversation == conv && ms[j].timestamp.Some?;
    assert ms[i] in r && ms[j] in r;
  }

  lemma MixedBothKinds(ms: seq<Message>, conv: nat)
    requires MixedKeys(ConversationMessages(ms, conv))
    ensures BothKinds(ms, conv)
  {
    var r := ConversationMessages(ms, conv);
    var a :| 0 <= a < |r| && r[a].timestamp.None?;
    var b :| 0 <= b < |r| && r[b].timestamp.Some?;
    assert r[a] in ms && r[b] in ms;
  }

  /**
   * A conversation that holds both a message without a timestamp and one
   * with a timestamp gets the fallback, whatever the model would answer; any
   * other conversation gets what the model's answer gives.
   */
  lemma MixedConversationFallsBack(ms: seq<Message>, conv: nat, call: ModelResult, fallback: int)
    requires 30 <= fallback <= 60
    ensures BothKinds(ms, conv) ==> DetermineLatencyIn(ms, conv, call, fallback) == (false, false, fallback)
    ensures !BothKinds(ms, conv) ==> DetermineLatencyIn(ms, conv, call, fallback) == DetermineLatency(call, fallback)
  {
    if BothKinds(ms, conv) {
      BothKindsMixed(ms, conv);
    } else if MixedKeys(ConversationMessages(ms, conv)) {
      MixedBothKinds(ms, conv);
    }
  }

  /**
   * The history of a conversation is chronological and complete: it holds the
   * string form of every message of the conversation, and they are taken in
   * non-decreasing timestamp order, each exactly as often as it is stored.
   */
  lemma ConversationHistory(ms: seq<Message>, conv: nat, m: Message)
    requires m in ms && m.conversation == conv
    ensures var sorted := SortByTimestamp(ConversationMessages(ms, conv));
      && SortedByTimestamp(sorted)
      && (forall x :: multiset(sorted)[x] == if x.conversation == conv then multiset(ms)[x] else 0)
      && Contains(History(sorted), MessageString(m))
  {
    var sorted := SortByTimestamp(ConversationMessages(ms, conv));
    assert m in multiset(ConversationMessages(ms, conv));
    assert m in sorted by { assert m in multiset(sorted); }
    HistoryContains(sorted, m);
  }
}
