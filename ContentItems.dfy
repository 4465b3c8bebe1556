/** `convert_status_to_pi_content_item` and the `contentItems` payload built in
    `watsonSubmission`: each status becomes one fixed-shape record, in order. The wall
    clock is a parameter: `clock(i)` is `int(time.time())` as read while converting the
    `i`-th status. */
module ContentItems {
  import opened Wrappers
  import opened Decimal
  import opened Timeline

  const SourceId: string := "python-twitter"
  const ContentType: string := "text/plain"

  /** One content item; every field is a string except the two flags, as in the dictionary
      the script builds. */
  datatype ContentItem = ContentItem(
    userid: string, id: string, sourceid: string, contenttype: string,
    language: string, content: string, created: string, reply: bool, forward: bool)

  /** The body handed to the analysis service: `{'contentItems': [...]}`. */
  datatype Payload = Payload(contentItems: seq<ContentItem>)

  /** The conversion of one status, taken at time `now` (whole seconds). */
  function ConvertStatus(s: Status, now: int): (c: ContentItem)
    ensures c.sourceid == SourceId && c.contenttype == ContentType && !c.forward
    ensures c.language == s.lang && c.content == s.text
    ensures c.reply <==> s.inReplyToStatusId == None
    ensures ParseInt(c.userid) == Some(s.user.id)
    ensures ParseInt(c.id) == Some(s.id)
    ensures ParseInt(c.created) == Some(now)
  {
    IntToStringRoundTrip(s.user.id);
    IntToStringRoundTrip(s.id);
    IntToStringRoundTrip(now);
    ContentItem(
      IntToString(s.user.id), IntToString(s.id), SourceId, ContentType,
      s.lang, s.text, IntToString(now), s.inReplyToStatusId == None, false)
  }

  /** The conversion depends on the clock only through `created`. */
  lemma ConvertStatusIgnoresClock(s: Status, t1: int, t2: int)
    ensures ConvertStatus(s, t1).(created := "") == ConvertStatus(s, t2).(created := "")
    ensures ConvertStatus(s, t1) == ConvertStatus(s, t2) <==> t1 == t2
  {
  }

  /** Distinct statuses whose conversions are equal could differ only in the fields the item
      leaves out: the ids of the post and its author are recovered exactly. */
  lemma ConvertStatusKeepsIds(s1: Status, s2: Status, t1: int, t2: int)
    requires ConvertStatus(s1, t1).id == ConvertStatus(s2, t2).id
    ensures s1.id == s2.id
  {
  }

  /** The payload: one content item per status, in the order of the statuses. */
  function BuildPayload(statuses: seq<Status>, clock: nat -> int): (p: Payload)
    ensures |p.contentItems| == |statuses|
    ensures forall i :: 0 <= i < |statuses| ==> p.contentItems[i] == ConvertStatus(statuses[i], clock(i))
    ensures forall i :: 0 <= i < |statuses| ==>
      ParseInt(p.contentItems[i].id) == Some(statuses[i].id) && p.contentItems[i].content == statuses[i].text
  {
    var items := seq(|statuses|, (i: nat) requires i < |statuses| => ConvertStatus(statuses[i], clock(i)));
    Payload(items)
  }

  /** `watsonSubmission(pullTweets())`: the item for post `j` of page `i` stands after the
      items of all earlier pages and carries that post's id and text. */
  lemma PayloadFollowsPages(pages: seq<seq<Status>>, clock: nat -> int, i: nat, j: nat)
    requires i < |pages| && j < |pages[i]|
    ensures |BuildPayload(Flatten(pages), clock).contentItems| == TotalLength(pages)
    ensures TotalLength(pages[..i]) + j < TotalLength(pages)
    ensures var item := BuildPayload(Flatten(pages), clock).contentItems[TotalLength(pages[..i]) + j];
      ParseInt(item.id) == Some(pages[i][j].id) && item.content == pages[i][j].text
  {
    FlattenLength(pages);
    FlattenIndex(pages, i, j);
  }
}
