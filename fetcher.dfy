/** Turning Gmail API messages into the flat email records the store keeps: body
    selection, the flags derived from label ids, and the fetch loop that skips a message
    whose retrieval raises.  The service is abstract: the listing is given, fetching one
    message is a function that fails with `None`, and so is base64/UTF-8 decoding. */
module Fetcher {
  import opened Wrappers
  import opened GmailUtils

  /** A payload's `body` object. */
  datatype MessageBody = MessageBody(data: Option<string>)

  /** A message payload or one of its parts; a missing key is `None`. */
  datatype Payload = Payload(
    mimeType: Option<string>,
    body: Option<MessageBody>,
    parts: Option<seq<Payload>>,
    headers: Option<seq<Header>>)

  const EmptyPayload := Payload(None, None, None, None)

  /** What `messages().get(...)` returns. */
  datatype MessageData = MessageData(
    id: Option<string>,
    snippet: Option<string>,
    payload: Option<Payload>,
    labelIds: Option<seq<string>>)

  /** What `messages().list(...)` returns: the ids of the listed messages. */
  datatype ListResponse = ListResponse(messages: Option<seq<string>>)

  /** One stored email record. */
  datatype FetchedEmail = FetchedEmail(
    id: Option<string>,
    snippet: Option<string>,
    subject: Option<string>,
    sender: Option<string>,
    recipient: Option<string>,
    receivedAt: Option<string>,
    body: string,
    isRead: bool,
    isStarred: bool,
    inboxType: string)

  /** `decode_base64`: missing or empty data is `""` without decoding; otherwise the
      decoder's result, `None` when it raises. */
  function DecodeBase64(data: Option<string>, decode: string -> Option<string>): (r: Option<string>)
    ensures (data.None? || data == Some("")) ==> r == Some("")
    ensures data.Some? && data.value != "" ==> r == decode(data.value)
  {
    if data.None? || data.value == "" then Some("") else decode(data.value)
  }

  /** `payload.get("body", {}).get("data")`. */
  function BodyData(p: Payload): Option<string> {
    match p.body
    case None => None
    case Some(b) => b.data
  }

  /** The index of the first `text/plain` part. */
  function FirstPlainPart(parts: seq<Payload>): (r: Option<nat>)
    ensures r.None? <==> forall i :: 0 <= i < |parts| ==> parts[i].mimeType != Some("text/plain")
    ensures r.Some? ==> r.value < |parts| && parts[r.value].mimeType == Some("text/plain")
    ensures r.Some? ==> forall i :: 0 <= i < r.value ==> parts[i].mimeType != Some("text/plain")
  {
    if parts == [] then None
    else if parts[0].mimeType == Some("text/plain") then Some(0)
    else
      var r := FirstPlainPart(parts[1..]);
      assert forall i :: 1 <= i < |parts| ==> parts[i] == parts[1..][i - 1];
      match r
      case None => None
      case Some(k) => Some(k + 1)
  }

  /** A payload `get_email_body` treats as multipart: not plain or html, and of a
      `multipart*` type. */
  predicate Multipart(p: Payload) {
    GetOr(p.mimeType, "") !in {"text/plain", "text/html"} && "multipart" <= GetOr(p.mimeType, "")
  }

  /** Part `i` is the first `text/plain` part. */
  predicate FirstPlainAt(parts: seq<Payload>, i: int) {
    && 0 <= i < |parts|
    && parts[i].mimeType == Some("text/plain")
    && forall j :: 0 <= j < i ==> parts[j].mimeType != Some("text/plain")
  }

  /** The body `get_email_body` extracts: the decoded top-level data of a `text/plain`
      or `text/html` payload, the decoded data of the first `text/plain` part of a
      `multipart*` payload, and `""` otherwise. `None` when decoding raises. */
  function EmailBody(p: Payload, decode: string -> Option<string>): (r: Option<string>)
    ensures GetOr(p.mimeType, "") in {"text/plain", "text/html"} ==> r == DecodeBase64(BodyData(p), decode)
    ensures GetOr(p.mimeType, "") !in {"text/plain", "text/html"} && !("multipart" <= GetOr(p.mimeType, "")) ==>
      r == Some("")
    ensures Multipart(p) && (forall i :: 0 <= i < |GetOr(p.parts, [])| ==> GetOr(p.parts, [])[i].mimeType != Some("text/plain")) ==>
      r == Some("")
    ensures forall i :: (Multipart(p) && FirstPlainAt(GetOr(p.parts, []), i)) ==>
      r == DecodeBase64(BodyData(GetOr(p.parts, [])[i]), decode)
  {
    if GetOr(p.mimeType, "") in {"text/plain", "text/html"} then
      DecodeBase64(BodyData(p), decode)
    else if Multipart(p) then
      var parts := GetOr(p.parts, []);
      match FirstPlainPart(parts)
      case None => Some("")
      case Some(k) =>
        assert forall i :: FirstPlainAt(parts, i) ==> i == k;
        DecodeBase64(BodyData(parts[k]), decode)
    else Some("")
  }

  /** `get_email_body`: the loop over the parts stops at the first `text/plain` one. */
  method GetEmailBody(p: Payload, decode: string -> Option<string>) returns (body: Option<string>)
    ensures body == EmailBody(p, decode)
  {
    body := Some("");
    var mimeType := GetOr(p.mimeType, "");
    if mimeType == "text/plain" || mimeType == "text/html" {
      body := DecodeBase64(BodyData(p), decode);
    } else if "multipart" <= mimeType {
      var parts := GetOr(p.parts, []);
      var i := 0;
      while i < |parts|
        invariant 0 <= i <= |parts|
        invariant forall j :: 0 <= j < i ==> parts[j].mimeType != Some("text/plain")
        invariant body == Some("")
      {
        if parts[i].mimeType == Some("text/plain") {
          body := DecodeBase64(BodyData(parts[i]), decode);
          FirstPlainPartAt(parts, i);
          break;
        }
        i := i + 1;
      }
    }
  }

  lemma FirstPlainPartAt(parts: seq<Payload>, i: nat)
    requires i < |parts| && parts[i].mimeType == Some("text/plain")
    requires forall j :: 0 <= j < i ==> parts[j].mimeType != Some("text/plain")
    ensures FirstPlainPart(parts) == Some(i)
  {
  }

  /** `is_read`: read unless labelled UNREAD; no labels means read. */
  function IsRead(labelIds: seq<string>): (r: bool)
    ensures r <==> "UNREAD" !in labelIds
  {
    if "UNREAD" in labelIds then false else true
  }

  /** `is_starred`. */
  function IsStarred(labelIds: seq<string>): (r: bool)
    ensures r <==> "STARRED" in labelIds
  {
    if "STARRED" in labelIds then true else false
  }

  /** `inbox_type`: the first of INBOX, SENT, SPAM present among the labels, else OTHER. */
  function InboxType(labelIds: seq<string>): (r: string)
    ensures r in {"INBOX", "SENT", "SPAM", "OTHER"}
    ensures r == "INBOX" <==> "INBOX" in labelIds
    ensures r == "SENT" <==> "SENT" in labelIds && "INBOX" !in labelIds
    ensures r == "SPAM" <==> "SPAM" in labelIds && "SENT" !in labelIds && "INBOX" !in labelIds
    ensures r == "OTHER" <==> forall l :: l in labelIds ==> l !in {"INBOX", "SENT", "SPAM"}
  {
    if "INBOX" in labelIds then "INBOX"
    else if "SENT" in labelIds then "SENT"
    else if "SPAM" in labelIds then "SPAM"
    else "OTHER"
  }

  /** The record built from one fetched message, `None` when building it raises. */
  function ToEmail(m: MessageData, decode: string -> Option<string>): (r: Option<FetchedEmail>)
    ensures r.None? <==> EmailBody(GetOr(m.payload, EmptyPayload), decode).None?
    ensures r.Some? ==> r.value.id == m.id && r.value.snippet == m.snippet
    ensures r.Some? ==> Some(r.value.body) == EmailBody(GetOr(m.payload, EmptyPayload), decode)
    ensures r.Some? ==> var headers := GetOr(GetOr(m.payload, EmptyPayload).headers, []);
      && r.value.subject == GetHeader(headers, "Subject") && r.value.sender == GetHeader(headers, "From")
      && r.value.recipient == GetHeader(headers, "To") && r.value.receivedAt == GetHeader(headers, "Date")
    ensures r.Some? ==>
      && (r.value.isRead <==> "UNREAD" !in GetOr(m.labelIds, []))
      && (r.value.isStarred <==> "STARRED" in GetOr(m.labelIds, []))
      && r.value.inboxType == InboxType(GetOr(m.labelIds, []))
  {
    var payload := GetOr(m.payload, EmptyPayload);
    var headers := GetOr(payload.headers, []);
    var labelIds := GetOr(m.labelIds, []);
    match EmailBody(payload, decode)
    case None => None
    case Some(body) =>
      Some(FetchedEmail(
        m.id, m.snippet,
        GetHeader(headers, "Subject"), GetHeader(headers, "From"),
        GetHeader(headers, "To"), GetHeader(headers, "Date"),
        body, IsRead(labelIds), IsStarred(labelIds), InboxType(labelIds)))
  }

  /** The record for one listed id: `None` when the fetch or the record raises. */
  function FetchOne(id: string, getMessage: string -> Option<MessageData>, decode: string -> Option<string>): Option<FetchedEmail> {
    match getMessage(id)
    case None => None
    case Some(m) => ToEmail(m, decode)
  }

  /** The records of the listed ids whose fetch succeeds, in listing order. */
  function Fetched(ids: seq<string>, getMessage: string -> Option<MessageData>, decode: string -> Option<string>): seq<FetchedEmail> {
    if ids == [] then []
    else
      var init := Fetched(ids[..|ids| - 1], getMessage, decode);
      match FetchOne(ids[|ids| - 1], getMessage, decode)
      case None => init
      case Some(e) => init + [e]
  }

  /** What `fetch_inbox_emails` returns: nothing when listing raises. */
  function FetchAll(listing: Option<ListResponse>, getMessage: string -> Option<MessageData>, decode: string -> Option<string>): seq<FetchedEmail> {
    match listing
    case None => []
    case Some(l) => Fetched(GetOr(l.messages, []), getMessage, decode)
  }

  /** `fetch_inbox_emails`: `listing` is `None` when the list call raises. */
  method FetchInboxEmails(listing: Option<ListResponse>, getMessage: string -> Option<MessageData>, decode: string -> Option<string>)
    returns (emailList: seq<FetchedEmail>)
    ensures emailList == FetchAll(listing, getMessage, decode)
    ensures listing.None? ==> emailList == []
    ensures listing.Some? ==> |emailList| <= |GetOr(listing.value.messages, [])|
  {
    emailList := [];
    if listing.None? {
      return;
    }
    var messages := GetOr(listing.value.messages, []);
    for i := 0 to |messages|
      invariant emailList == Fetched(messages[..i], getMessage, decode)
    {
      FetchedStep(messages, i, getMessage, decode);
      var msgData := getMessage(messages[i]);
      if msgData.None? {
        continue;
      }
      var email := ToEmail(msgData.value, decode);
      assert email == FetchOne(messages[i], getMessage, decode);
      if email.None? {
        continue;
      }
      emailList := emailList + [email.value];
    }
    assert messages[..|messages|] == messages;
    FetchedLength(messages, getMessage, decode);
  }

  /** One more listed id adds its record, or nothing when its fetch raises. */
  lemma FetchedStep(ids: seq<string>, i: nat, getMessage: string -> Option<MessageData>, decode: string -> Option<string>)
    requires i < |ids|
    ensures var one := FetchOne(ids[i], getMessage, decode);
      Fetched(ids[..i + 1], getMessage, decode) ==
        Fetched(ids[..i], getMessage, decode) + (if one.Some? then [one.value] else [])
  {
    assert ids[..i + 1][..i] == ids[..i];
  }

  // ---------------------------------------------------------------------------
  // Properties of the fetcher

  /** No more records than listed ids. */
  lemma {:induction false} FetchedLength(ids: seq<string>, getMessage: string -> Option<MessageData>, decode: string -> Option<string>)
    ensures |Fetched(ids, getMessage, decode)| <= |ids|
  {
    if ids != [] {
      FetchedLength(ids[..|ids| - 1], getMessage, decode);
    }
  }

  /** Fetching a concatenation is fetching each part: a failure affects only its own message. */
  lemma {:induction false} FetchedAppend(a: seq<string>, b: seq<string>, getMessage: string -> Option<MessageData>, decode: string -> Option<string>)
    ensures Fetched(a + b, getMessage, decode) == Fetched(a, getMessage, decode) + Fetched(b, getMessage, decode)
    decreases |b|
  {
    if b == [] {
      assert a + b == a;
    } else {
      assert (a + b)[..|a + b| - 1] == a + b[..|b| - 1];
      FetchedAppend(a, b[..|b| - 1], getMessage, decode);
    }
  }

  /** A message whose fetch raises is skipped, and the others are kept. */
  lemma FailedMessageSkipped(a: seq<string>, id: string, b: seq<string>, getMessage: string -> Option<MessageData>, decode: string -> Option<string>)
    requires FetchOne(id, getMessage, decode).None?
    ensures Fetched(a + [id] + b, getMessage, decode) == Fetched(a + b, getMessage, decode)
  {
    FetchedAppend(a + [id], b, getMessage, decode);
    FetchedAppend(a, [id], getMessage, decode);
    FetchedAppend(a, b, getMessage, decode);
    assert [id][..0] == [];
  }

  /** When every fetch succeeds, there is one record per listed id, in listing order. */
  lemma {:induction false} AllFetchedInOrder(ids: seq<string>, getMessage: string -> Option<MessageData>, decode: string -> Option<string>)
    requires forall i :: 0 <= i < |ids| ==> FetchOne(ids[i], getMessage, decode).Some?
    ensures |Fetched(ids, getMessage, decode)| == |ids|
    ensures forall i :: 0 <= i < |ids| ==> FetchOne(ids[i], getMessage, decode) == Some(Fetched(ids, getMessage, decode)[i])
  {
    if ids != [] {
      var n := |ids| - 1;
      assert forall i :: 0 <= i < n ==> ids[..n][i] == ids[i];
      AllFetchedInOrder(ids[..n], getMessage, decode);
      LastFetched(ids, getMessage, decode);
    }
  }

  lemma LastFetched(ids: seq<string>, getMessage: string -> Option<MessageData>, decode: string -> Option<string>)
    requires ids != [] && FetchOne(ids[|ids| - 1], getMessage, decode).Some?
    requires var init := ids[..|ids| - 1];
      |Fetched(init, getMessage, decode)| == |init| &&
      forall i :: 0 <= i < |init| ==> FetchOne(init[i], getMessage, decode) == Some(Fetched(init, getMessage, decode)[i])
    ensures |Fetched(ids, getMessage, decode)| == |ids|
    ensures forall i :: 0 <= i < |ids| ==> FetchOne(ids[i], getMessage, decode) == Some(Fetched(ids, getMessage, decode)[i])
  {
    var n := |ids| - 1;
    var init := ids[..n];
    var before, last := Fetched(init, getMessage, decode), FetchOne(ids[n], getMessage, decode).value;
    assert Fetched(ids, getMessage, decode) == before + [last];
    forall i | 0 <= i < |ids|
      ensures FetchOne(ids[i], getMessage, decode) == Some(Fetched(ids, getMessage, decode)[i])
    {
      if i < n {
        assert init[i] == ids[i];
      }
    }
  }

  /** Whether a record is read, starred and in which box depends only on whether each
      label is present, not on order or repetition. */
  lemma FlagsByMembership(a: seq<string>, b: seq<string>)
    requires forall l :: l in a <==> l in b
    ensures IsRead(a) == IsRead(b) && IsStarred(a) == IsStarred(b) && InboxType(a) == InboxType(b)
  {
  }

  /** A message with no `payload` and no `labelIds` gives an empty body, a read,
      unstarred record of type OTHER with no headers. */
  lemma BareMessage(id: string, decode: string -> Option<string>)
    ensures ToEmail(MessageData(Some(id), None, None, None), decode) ==
      Some(FetchedEmail(Some(id), None, None, None, None, None, "", true, false, "OTHER"))
  {
  }
}
