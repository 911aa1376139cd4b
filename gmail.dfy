/**
 * The pure parts of conversation/services/gmail_service.py: the search for the
 * plain-text body in a message payload (`_get_message_body`), the header map
 * and defaults of `get_message_details`, and the request bodies built by
 * `create_draft` and `send_email`. Every call to the Gmail API is left out;
 * base64 and UTF-8 decoding is the parameter `decode`.
 */
module Gmail {
  import opened Wrappers

  /** A `body` object of the Gmail API: its `data` key may be absent. */
  datatype Body = Body(data: Option<string>)

  /**
   * A message payload or one of its parts. Each key may be absent from the
   * dictionary the API returns; `hasParts` says whether the `parts` key is
   * present, and `parts` is not looked at when it is not.
   */
  datatype Payload = Payload(mimeType: Option<string>, body: Option<Body>, hasParts: bool, parts: seq<Payload>)

  /** What `_get_message_body` returns, or the `KeyError` it raises for a missing key. */
  datatype BodyResult = Text(text: string) | KeyError(key: string)

  /** `"body" in payload and payload["body"].get("data")`: an empty string is false in Python. */
  predicate HasData(body: Option<Body>)
  {
    body.Some? && body.value.data.Some? && body.value.data.value != ""
  }

  function Data(body: Option<Body>): string
    requires HasData(body)
  {
    body.value.data.value
  }

  predicate IsTextPlain(p: Payload)
  {
    p.mimeType == Some("text/plain")
  }

  /** `_get_message_body`: the payload's own data, else the first match among its parts, else `""`. */
  function GetMessageBody(p: Payload, decode: string -> string): (r: BodyResult)
    decreases p, 1
  {
    if HasData(p.body) then Text(decode(Data(p.body)))
    else if p.hasParts then ScanParts(p, 0, decode)
    else Text("")
  }

  /** The `for part in payload["parts"]` loop, from position `i` on. */
  function ScanParts(parent: Payload, i: nat, decode: string -> string): (r: BodyResult)
    requires parent.hasParts && i <= |parent.parts|
    decreases parent, 0, |parent.parts| - i
  {
    var parts := parent.parts;
    if i == |parts| then Text("")
    else
      var part := parts[i];
      if part.mimeType.None? then KeyError("mimeType")
      else if IsTextPlain(part) && part.body.None? then KeyError("body")
      else if IsTextPlain(part) && HasData(part.body) then Text(decode(Data(part.body)))
      else if part.hasParts then
        match GetMessageBody(part, decode)
        case KeyError(k) => KeyError(k)
        case Text(b) => if b != "" then Text(b) else ScanParts(parent, i + 1, decode)
      else ScanParts(parent, i + 1, decode)
  }

  /**
   * `_get_message_body` as the source runs it: an early-returning loop over
   * the parts, calling itself on a part that has sub-parts.
   */
  method FindMessageBody(p: Payload, decode: string -> string) returns (r: BodyResult)
    ensures r == GetMessageBody(p, decode)
    decreases p
  {
    if HasData(p.body) {
      return Text(decode(Data(p.body)));
    }
    if p.hasParts {
      var i := 0;
      while i < |p.parts|
        invariant 0 <= i <= |p.parts|
        invariant ScanParts(p, i, decode) == GetMessageBody(p, decode)
      {
        var part := p.parts[i];
        if part.mimeType.None? {
          return KeyError("mimeType");
        }
        if IsTextPlain(part) {
          if part.body.None? {
            return KeyError("body");
          }
          if HasData(part.body) {
            return Text(decode(Data(part.body)));
          }
        }
        if part.hasParts {
          var found := FindMessageBody(part, decode);
          if found.KeyError? || found.text != "" {
            return found;
          }
        }
        i := i + 1;
      }
    }
    return Text("");
  }

  /**
   * A part the scan steps over: it has a MIME type, a `text/plain` part has a
   * body but no data, and a search inside its sub-parts finds nothing.
   */
  ghost predicate PassesOver(part: Payload, decode: string -> string)
  {
    && part.mimeType.Some?
    && (IsTextPlain(part) ==> part.body.Some? && !HasData(part.body))
    && (part.hasParts ==> GetMessageBody(part, decode) == Text(""))
  }

  lemma SkipPart(parent: Payload, i: nat, decode: string -> string)
    requires parent.hasParts && i < |parent.parts|
    requires PassesOver(parent.parts[i], decode)
    ensures ScanParts(parent, i, decode) == ScanParts(parent, i + 1, decode)
  {
  }

  lemma {:induction false} SkipParts(parent: Payload, i: nat, j: nat, decode: string -> string)
    requires parent.hasParts && i <= j <= |parent.parts|
    requires forall k :: i <= k < j ==> PassesOver(parent.parts[k], decode)
    ensures ScanParts(parent, i, decode) == ScanParts(parent, j, decode)
    decreases j - i
  {
    if i < j {
      SkipPart(parent, i, decode);
      SkipParts(parent, i + 1, j, decode);
    }
  }

  /** If the payload's own body has data, that data is the result: the parts are not consulted. */
  lemma OwnBodyFirst(p: Payload, decode: string -> string)
    requires HasData(p.body)
    ensures GetMessageBody(p, decode) == Text(decode(Data(p.body)))
  {
  }

  /**
   * Otherwise the first `text/plain` part with data is the result, provided
   * the parts before it are stepped over.
   */
  lemma FirstTextPart(p: Payload, i: nat, decode: string -> string)
    requires !HasData(p.body) && p.hasParts && i < |p.parts|
    requires forall k :: 0 <= k < i ==> PassesOver(p.parts[k], decode)
    requires IsTextPlain(p.parts[i]) && HasData(p.parts[i].body)
    ensures GetMessageBody(p, decode) == Text(decode(Data(p.parts[i].body)))
  {
    SkipParts(p, 0, i, decode);
  }

  /**
   * A part with sub-parts that is not a `text/plain` part with data (a
   * `text/plain` part whose body has no data included) is searched in turn,
   * and what it finds is the result when it is not empty; when it is empty
   * the scan goes on.
   */
  lemma NestedPart(p: Payload, i: nat, decode: string -> string)
    requires !HasData(p.body) && p.hasParts && i < |p.parts|
    requires forall k :: 0 <= k < i ==> PassesOver(p.parts[k], decode)
    requires var part := p.parts[i];
      part.mimeType.Some? && (IsTextPlain(part) ==> part.body.Some? && !HasData(part.body)) && part.hasParts
    ensures var found := GetMessageBody(p.parts[i], decode);
      found.Text? && found.text != "" ==> GetMessageBody(p, decode) == found
    ensures GetMessageBody(p.parts[i], decode) == Text("") ==>
      GetMessageBody(p, decode) == ScanParts(p, i + 1, decode)
  {
    SkipParts(p, 0, i, decode);
  }

  /** A leaf part that is not `text/plain` is stepped over, whatever data it carries. */
  lemma LeafNotTextPlain(part: Payload, decode: string -> string)
    requires part.mimeType.Some? && !IsTextPlain(part) && !part.hasParts
    ensures PassesOver(part, decode)
  {
  }

  /** When every part is stepped over, the body is the empty string. */
  lemma NothingMatches(p: Payload, decode: string -> string)
    requires !HasData(p.body)
    requires p.hasParts ==> forall k :: 0 <= k < |p.parts| ==> PassesOver(p.parts[k], decode)
    ensures GetMessageBody(p, decode) == Text("")
  {
    if p.hasParts {
      SkipParts(p, 0, |p.parts|, decode);
    }
  }

  /**
   * The data the search may return: the payload's own data, the data of a
   * `text/plain` part, or whatever a part with sub-parts may return.
   */
  ghost predicate Eligible(p: Payload, d: string)
    decreases p, 1
  {
    || (HasData(p.body) && Data(p.body) == d)
    || (p.hasParts && exists k :: 0 <= k < |p.parts| && EligiblePart(p, k, d))
  }

  ghost predicate EligiblePart(parent: Payload, k: nat, d: string)
    requires parent.hasParts && k < |parent.parts|
    decreases parent, 0
  {
    var part := parent.parts[k];
    || (IsTextPlain(part) && HasData(part.body) && Data(part.body) == d)
    || (part.hasParts && Eligible(part, d))
  }

  /** A non-empty body is always the decoding of eligible data found in the payload. */
  lemma {:induction false} BodyIsEligible(p: Payload, decode: string -> string)
    requires GetMessageBody(p, decode).Text? && GetMessageBody(p, decode).text != ""
    ensures exists d :: Eligible(p, d) && decode(d) == GetMessageBody(p, decode).text
    decreases p, 1
  {
    if HasData(p.body) {
      assert Eligible(p, Data(p.body));
    } else {
      ScanIsEligible(p, 0, decode);
    }
  }

  lemma {:induction false} ScanIsEligible(parent: Payload, i: nat, decode: string -> string)
    requires parent.hasParts && i <= |parent.parts|
    requires ScanParts(parent, i, decode).Text? && ScanParts(parent, i, decode).text != ""
    ensures exists d :: Eligible(parent, d) && decode(d) == ScanParts(parent, i, decode).text
    decreases parent, 0, |parent.parts| - i
  {
    var parts := parent.parts;
    var part := parts[i];
    var r := ScanParts(parent, i, decode);
    if IsTextPlain(part) && HasData(part.body) {
      assert EligiblePart(parent, i, Data(part.body));
      assert Eligible(parent, Data(part.body));
    } else if part.hasParts && GetMessageBody(part, decode) == r {
      BodyIsEligible(part, decode);
      var d :| Eligible(part, d) && decode(d) == r.text;
      assert EligiblePart(parent, i, d);
      assert Eligible(parent, d);
    } else {
      ScanIsEligible(parent, i + 1, decode);
    }
  }

  // ---------------------------------------------------------------------------
  // get_message_details
  // ---------------------------------------------------------------------------

  datatype Header = Header(name: string, value: string)

  /** ASCII case folding; `str.lower` on the header names used here. */
  function Lower(c: char): char
  {
    if 'A' <= c <= 'Z' then (c as int + 32) as char else c
  }

  function LowerString(s: string): (r: string)
    ensures |r| == |s| && forall i :: 0 <= i < |s| ==> r[i] == Lower(s[i])
  {
    if |s| == 0 then "" else [Lower(s[0])] + LowerString(s[1..])
  }

  /** Lower-casing twice is lower-casing once, so every key of the header map is already lower case. */
  lemma LowerStringIdempotent(s: string)
    ensures LowerString(LowerString(s)) == LowerString(s)
  {
  }

  /** The header at position `i` is the last one whose name lowers to the same key. */
  ghost predicate LastWithName(hs: seq<Header>, i: nat)
    requires i < |hs|
  {
    forall j :: i < j < |hs| ==> LowerString(hs[j].name) != LowerString(hs[i].name)
  }

  /** The map `{header["name"].lower(): header["value"]}`, built header by header. */
  function HeadersOf(hs: seq<Header>): (headers: map<string, string>)
  {
    if |hs| == 0 then map[]
    else HeadersOf(hs[..|hs| - 1])[LowerString(hs[|hs| - 1].name) := hs[|hs| - 1].value]
  }

  /** The keys of the header map are exactly the lowered header names. */
  lemma {:induction false} HeadersOfKeys(hs: seq<Header>, k: string)
    ensures k in HeadersOf(hs) <==> exists i :: 0 <= i < |hs| && LowerString(hs[i].name) == k
  {
    if |hs| > 0 {
      var init := hs[..|hs| - 1];
      HeadersOfKeys(init, k);
      if k in HeadersOf(init) {
        var i :| 0 <= i < |init| && LowerString(init[i].name) == k;
        assert hs[i] == init[i];
      }
      if i :| 0 <= i < |hs| - 1 && LowerString(hs[i].name) == k {
        assert init[i] == hs[i];
      }
    }
  }

  /** A later header overwrites an earlier one: each key maps to the value of the last header with that name. */
  lemma {:induction false} HeadersOfLast(hs: seq<Header>, i: nat)
    requires i < |hs| && LastWithName(hs, i)
    ensures LowerString(hs[i].name) in HeadersOf(hs)
    ensures HeadersOf(hs)[LowerString(hs[i].name)] == hs[i].value
  {
    var init := hs[..|hs| - 1];
    if i < |hs| - 1 {
      assert init[i] == hs[i];
      assert LastWithName(init, i) by {
        forall j | i < j < |init| ensures LowerString(init[j].name) != LowerString(init[i].name) {
          assert init[j] == hs[j];
        }
      }
      HeadersOfLast(init, i);
      assert LowerString(hs[|hs| - 1].name) != LowerString(hs[i].name);
    }
  }

  /** The header loop of `get_message_details`. */
  method BuildHeaders(hs: seq<Header>) returns (headers: map<string, string>)
    ensures headers == HeadersOf(hs)
  {
    headers := map[];
    for i := 0 to |hs|
      invariant headers == HeadersOf(hs[..i])
    {
      assert hs[..i + 1][..i] == hs[..i];
      headers := headers[LowerString(hs[i].name) := hs[i].value];
    }
    assert hs[..|hs|] == hs;
  }

  /** The dictionary `get_message_details` returns when the API call succeeds. */
  datatype MessageDetails = MessageDetails(
    id: string, threadId: string, subject: string, sender: string, to: string,
    date: string, body: string)

  /** `headers.get(key, "")`. */
  function HeaderOr(headers: map<string, string>, key: string): string
  {
    if key in headers then headers[key] else ""
  }

  /** The details assembled from the header list and the extracted body. */
  function DetailsOf(id: string, threadId: string, hs: seq<Header>, body: string): (d: MessageDetails)
  {
    var headers := HeadersOf(hs);
    MessageDetails(id, threadId, HeaderOr(headers, "subject"), HeaderOr(headers, "from"),
                   HeaderOr(headers, "to"), HeaderOr(headers, "date"), body)
  }

  /**
   * A field of the details is the value of the last header whose name, lower
   * cased, is the key; without such a header it is `""`.
   */
  lemma HeaderField(hs: seq<Header>, key: string)
    ensures (forall i :: 0 <= i < |hs| ==> LowerString(hs[i].name) != key) ==> HeaderOr(HeadersOf(hs), key) == ""
    ensures forall i :: 0 <= i < |hs| && LowerString(hs[i].name) == key && LastWithName(hs, i) ==>
      HeaderOr(HeadersOf(hs), key) == hs[i].value
  {
    HeadersOfKeys(hs, key);
    forall i | 0 <= i < |hs| && LowerString(hs[i].name) == key && LastWithName(hs, i)
      ensures HeaderOr(HeadersOf(hs), key) == hs[i].value
    {
      HeadersOfLast(hs, i);
    }
  }

  /**
   * The subject, sender, recipient and date of the details are the values of
   * the last `Subject`, `From`, `To` and `Date` headers, whatever their case,
   * or `""` when the message has no such header.
   */
  lemma DetailsFields(id: string, threadId: string, hs: seq<Header>, body: string)
    ensures var d := DetailsOf(id, threadId, hs, body);
      && ((forall i :: 0 <= i < |hs| ==> LowerString(hs[i].name) != "subject") ==> d.subject == "")
      && ((forall i :: 0 <= i < |hs| ==> LowerString(hs[i].name) != "from") ==> d.sender == "")
      && ((forall i :: 0 <= i < |hs| ==> LowerString(hs[i].name) != "to") ==> d.to == "")
      && ((forall i :: 0 <= i < |hs| ==> LowerString(hs[i].name) != "date") ==> d.date == "")
    ensures forall i :: 0 <= i < |hs| && LastWithName(hs, i) ==>
      var d := DetailsOf(id, threadId, hs, body);
      var key := LowerString(hs[i].name);
      && (key == "subject" ==> d.subject == hs[i].value)
      && (key == "from" ==> d.sender == hs[i].value)
      && (key == "to" ==> d.to == hs[i].value)
      && (key == "date" ==> d.date == hs[i].value)
  {
    HeaderField(hs, "subject");
    HeaderField(hs, "from");
    HeaderField(hs, "to");
    HeaderField(hs, "date");
  }

  // ---------------------------------------------------------------------------
  // Request bodies of send_email and create_draft
  // ---------------------------------------------------------------------------

  /** `if thread_id:` — a missing or empty thread id is false. */
  predicate HasThread(threadId: Option<string>)
  {
    threadId.Some? && threadId.value != ""
  }

  /** The message object sent to the API: the raw message, and the thread id when there is one. */
  ghost predicate MessageObject(body: map<string, string>, raw: string, threadId: Option<string>)
  {
    && "raw" in body && body["raw"] == raw
    && ("threadId" in body <==> HasThread(threadId))
    && ("threadId" in body ==> body["threadId"] == threadId.value)
    && body.Keys <= {"raw", "threadId"}
  }

  /** The body `send_email` passes to `messages().send`. */
  method SendBody(raw: string, threadId: Option<string>) returns (body: map<string, string>)
    ensures MessageObject(body, raw, threadId)
  {
    body := map["raw" := raw];
    if HasThread(threadId) {
      body := body["threadId" := threadId.value];
    }
  }

  /** The body `create_draft` passes to `drafts().create`: the message object under `"message"`. */
  method DraftBody(raw: string, threadId: Option<string>) returns (body: map<string, map<string, string>>)
    ensures body.Keys == {"message"} && MessageObject(body["message"], raw, threadId)
  {
    body := map["message" := map["raw" := raw]];
    if HasThread(threadId) {
      body := body["message" := body["message"]["threadId" := threadId.value]];
    }
  }
}
