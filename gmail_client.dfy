/** The label changes the Gmail client asks for: the `messages().modify` request each of
    `mark_as_read`, `mark_as_unread` and `move_message` sends, and what applying it does to
    a message's label set.  The API call itself is not modelled. */
module GmailClient {
  import opened Wrappers
  import Fetcher

  /** A modify body; a list is `None` when the source does not write its key. */
  datatype ModifyBody = ModifyBody(addLabelIds: Option<seq<string>>, removeLabelIds: Option<seq<string>>)

  datatype ModifyRequest = ModifyRequest(userId: string, id: string, body: ModifyBody)

  /** `mark_as_read`: remove UNREAD, add nothing. */
  function MarkAsRead(messageId: string): (r: ModifyRequest)
    ensures r.userId == "me" && r.id == messageId
    ensures r.body.addLabelIds.None? && r.body.removeLabelIds == Some(["UNREAD"])
    ensures Labels(r.body.removeLabelIds) == {"UNREAD"}
  {
    ModifyRequest("me", messageId, ModifyBody(None, Some(["UNREAD"])))
  }

  /** `mark_as_unread`: add UNREAD, remove nothing. */
  function MarkAsUnread(messageId: string): (r: ModifyRequest)
    ensures r.userId == "me" && r.id == messageId
    ensures r.body.removeLabelIds.None? && r.body.addLabelIds == Some(["UNREAD"])
    ensures Labels(r.body.addLabelIds) == {"UNREAD"}
  {
    ModifyRequest("me", messageId, ModifyBody(Some(["UNREAD"]), None))
  }

  /** `move_message`: add the folder, and archive (remove INBOX) unless the folder is INBOX. */
  function MoveMessage(messageId: string, folder: string): (r: ModifyRequest)
    ensures r.userId == "me" && r.id == messageId
    ensures r.body.addLabelIds.Some? && r.body.removeLabelIds.Some?
    ensures Labels(r.body.addLabelIds) == {folder}
    ensures Labels(r.body.removeLabelIds) == if folder == "INBOX" then {} else {"INBOX"}
  {
    var addLabels := [folder];
    var removeLabels := if folder != "INBOX" then ["INBOX"] else [];
    ModifyRequest("me", messageId, ModifyBody(Some(addLabels), Some(removeLabels)))
  }

  function Labels(l: Option<seq<string>>): set<string> {
    set x | x in GetOr(l, [])
  }

  /** The label set of a message after the request: the removed labels are taken away
      and the added ones put in. */
  function Relabel(labels: set<string>, body: ModifyBody): set<string> {
    (labels - Labels(body.removeLabelIds)) + Labels(body.addLabelIds)
  }

  // ---------------------------------------------------------------------------
  // Properties of the requests

  /** Marking read removes exactly UNREAD and keeps every other label. */
  lemma MarkAsReadEffect(messageId: string, labels: set<string>)
    ensures Labels(MarkAsRead(messageId).body.removeLabelIds) == {"UNREAD"}
    ensures Relabel(labels, MarkAsRead(messageId).body) == labels - {"UNREAD"}
  {
    assert Labels(Some(["UNREAD"])) == {"UNREAD"};
  }

  /** Marking unread adds exactly UNREAD and keeps every other label. */
  lemma MarkAsUnreadEffect(messageId: string, labels: set<string>)
    ensures Labels(MarkAsUnread(messageId).body.addLabelIds) == {"UNREAD"}
    ensures Relabel(labels, MarkAsUnread(messageId).body) == labels + {"UNREAD"}
  {
    assert Labels(Some(["UNREAD"])) == {"UNREAD"};
  }

  /** A move always adds exactly the folder, removes INBOX exactly when the folder is not
      INBOX, and so never adds and removes the same label. */
  lemma MoveMessageEffect(messageId: string, folder: string, labels: set<string>)
    ensures MoveMessage(messageId, folder).body.addLabelIds == Some([folder])
    ensures folder != "INBOX" ==> MoveMessage(messageId, folder).body.removeLabelIds == Some(["INBOX"])
    ensures folder == "INBOX" ==> MoveMessage(messageId, folder).body.removeLabelIds == Some([])
    ensures Labels(MoveMessage(messageId, folder).body.addLabelIds) !! Labels(MoveMessage(messageId, folder).body.removeLabelIds)
    ensures folder in Relabel(labels, MoveMessage(messageId, folder).body)
    ensures "INBOX" in Relabel(labels, MoveMessage(messageId, folder).body) <==> folder == "INBOX"
    ensures forall l :: l != folder && l != "INBOX" ==>
      (l in Relabel(labels, MoveMessage(messageId, folder).body) <==> l in labels)
  {
    var body := MoveMessage(messageId, folder).body;
    assert Labels(body.addLabelIds) == {folder};
    if folder != "INBOX" {
      assert Labels(body.removeLabelIds) == {"INBOX"};
    } else {
      assert Labels(body.removeLabelIds) == {};
    }
  }

  // ---------------------------------------------------------------------------
  // What the fetcher then reads off the new labels

  /** After marking read, the message is fetched as read; after marking unread, as unread;
      neither changes whether it is starred. */
  lemma ReadFlagFollowsRequest(messageId: string, before: set<string>, after: seq<string>)
    ensures (set l | l in after) == Relabel(before, MarkAsRead(messageId).body) ==>
      Fetcher.IsRead(after) && (Fetcher.IsStarred(after) <==> "STARRED" in before)
    ensures (set l | l in after) == Relabel(before, MarkAsUnread(messageId).body) ==>
      !Fetcher.IsRead(after) && (Fetcher.IsStarred(after) <==> "STARRED" in before)
  {
    var present := set l | l in after;
    assert "UNREAD" in after <==> "UNREAD" in present;
    assert "STARRED" in after <==> "STARRED" in present;
    MarkAsReadEffect(messageId, before);
    MarkAsUnreadEffect(messageId, before);
  }

  /** After a move out of the inbox the message is no longer fetched as INBOX; a move to
      SPAM (or SENT) makes that its type. */
  lemma InboxTypeAfterMove(messageId: string, folder: string, before: set<string>, after: seq<string>)
    requires (set l | l in after) == Relabel(before, MoveMessage(messageId, folder).body)
    ensures Fetcher.InboxType(after) == "INBOX" <==> folder == "INBOX"
    ensures folder == "SPAM" ==> Fetcher.InboxType(after) == (if "SENT" in before then "SENT" else "SPAM")
    ensures folder == "SENT" ==> Fetcher.InboxType(after) == "SENT"
  {
    MoveMessageEffect(messageId, folder, before);
    assert forall l :: l in after <==> l in (set l | l in after);
  }
}
