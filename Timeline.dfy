/** `Interviewer.pullTweets`: sixteen `user_timeline` calls, each asking for posts
    older than a cursor (`max_id`) taken from the previous page, with every page
    appended to one list. The timeline service is a parameter: a function from the
    call's index and its request to the page it answers with. */
module Timeline {
  import opened Wrappers

  datatype User = User(id: int)

  /** The fields of a tweepy status that the script reads. */
  datatype Status = Status(id: int, user: User, lang: string, text: string, inReplyToStatusId: Option<int>)

  /** The arguments of one `user_timeline` call; `maxId == None` is a call without `max_id`. */
  datatype Request = Request(screenName: string, count: nat, maxId: Option<int>, includeRts: bool)

  /** The page the service answers the `i`-th call with. */
  type TimelineSource = (nat, Request) -> seq<Status>

  /** Taking the last post of an empty first page raises `IndexError`, which nothing catches. */
  datatype PullError = EmptyFirstPage

  const PageBudget: nat := 16
  const PageSize: nat := 200

  /** The cursor after a page: one below the id of its last post, or the old cursor when
      the page is empty (the `IndexError` is swallowed). */
  function NextMaxId(maxId: Option<int>, page: seq<Status>): Option<int> {
    if |page| == 0 then maxId else Some(page[|page| - 1].id - 1)
  }

  /** The requests the script issues: each for `handle`, 200 posts, no reposts; the first
      without `max_id`, every later one with the cursor left by the page before it. */
  ghost predicate FollowsProtocol(handle: string, source: TimelineSource, requests: seq<Request>) {
    && (forall i :: 0 <= i < |requests| ==>
          requests[i].screenName == handle && requests[i].count == PageSize && !requests[i].includeRts)
    && (|requests| > 0 ==> requests[0].maxId == None)
    && (forall i :: 0 <= i < |requests| - 1 ==>
          requests[i + 1].maxId == NextMaxId(requests[i].maxId, source(i, requests[i])))
  }

  /** The pages the service returns to the given requests, in call order. */
  function Responses(source: TimelineSource, requests: seq<Request>): seq<seq<Status>> {
    seq(|requests|, i requires 0 <= i < |requests| => source(i, requests[i]))
  }

  /** The pages joined end to end. */
  function Flatten(pages: seq<seq<Status>>): seq<Status> {
    if |pages| == 0 then [] else Flatten(pages[..|pages| - 1]) + pages[|pages| - 1]
  }

  function TotalLength(pages: seq<seq<Status>>): nat {
    if |pages| == 0 then 0 else TotalLength(pages[..|pages| - 1]) + |pages[|pages| - 1]|
  }

  /** The pagination loop. On success exactly `PageBudget` requests were issued and the
      result is every page in call order; an empty first page stops it after one call. */
  method PullTweets(handle: string, source: TimelineSource)
    returns (result: Result<seq<Status>, PullError>, requests: seq<Request>)
    ensures FollowsProtocol(handle, source, requests)
    ensures result.Failure? <==> source(0, Request(handle, PageSize, None, false)) == []
    ensures result.Failure? ==> result.error == EmptyFirstPage && |requests| == 1
    ensures result.Success? ==> |requests| == PageBudget
    ensures result.Success? ==> result.value == Flatten(Responses(source, requests))
  {
    var maxId: Option<int> := None;
    var statuses: seq<Status> := [];
    requests := [];
    for x := 0 to PageBudget
      invariant |requests| == x
      invariant FollowsProtocol(handle, source, requests)
      invariant x > 0 ==> source(0, requests[0]) != []
      invariant x > 0 ==> maxId == NextMaxId(requests[x - 1].maxId, source(x - 1, requests[x - 1]))
      invariant statuses == Flatten(Responses(source, requests))
    {
      var request: Request;
      var portion: seq<Status>;
      if x == 0 {
        request := Request(handle, PageSize, None, false);
        portion := source(x, request);
        if |portion| == 0 {
          return Failure(EmptyFirstPage), [request];
        }
        maxId := Some(portion[|portion| - 1].id - 1);
      } else {
        request := Request(handle, PageSize, maxId, false);
        portion := source(x, request);
        if |portion| > 0 {
          maxId := Some(portion[|portion| - 1].id - 1);
        }
      }
      ghost var before := requests;
      requests := requests + [request];
      assert Responses(source, requests) == Responses(source, before) + [portion];
      // The `for status in statuses_portion` append loop.
      ghost var accumulated := statuses;
      for j := 0 to |portion|
        invariant statuses == accumulated + portion[..j]
      {
        statuses := statuses + [portion[j]];
      }
      assert portion[..|portion|] == portion;
    }
    result := Success(statuses);
  }

  /** The protocol fixes the requests: two request lists that both follow it for the same
      handle and service, and are equally long, are equal. */
  lemma {:induction false} ProtocolDeterminesRequests(handle: string, source: TimelineSource, a: seq<Request>, b: seq<Request>)
    requires FollowsProtocol(handle, source, a) && FollowsProtocol(handle, source, b)
    requires |a| == |b|
    ensures a == b
    decreases |a|
  {
    if |a| > 0 {
      var n := |a| - 1;
      ProtocolDeterminesRequests(handle, source, a[..n], b[..n]);
      assert a[..n] == b[..n];
      if n > 0 {
        assert a[n - 1] == a[..n][n - 1] && b[n - 1] == b[..n][n - 1];
        assert a[n].maxId == b[n].maxId;
      }
      assert a == a[..n] + [a[n]] && b == b[..n] + [b[n]];
    }
  }

  /** Nothing is dropped: the joined list is as long as all pages together. */
  lemma {:induction false} FlattenLength(pages: seq<seq<Status>>)
    ensures |Flatten(pages)| == TotalLength(pages)
    decreases |pages|
  {
    if |pages| > 0 {
      FlattenLength(pages[..|pages| - 1]);
    }
  }

  /** Nothing is reordered: post `j` of page `i` sits after every post of the pages before it. */
  lemma {:induction false} FlattenIndex(pages: seq<seq<Status>>, i: nat, j: nat)
    requires i < |pages| && j < |pages[i]|
    ensures TotalLength(pages[..i]) + j < |Flatten(pages)|
    ensures Flatten(pages)[TotalLength(pages[..i]) + j] == pages[i][j]
    decreases |pages|
  {
    var n := |pages| - 1;
    var init := pages[..n];
    FlattenLength(init);
    FlattenLength(pages[..i]);
    if i < n {
      assert init[..i] == pages[..i];
      FlattenIndex(init, i, j);
    } else {
      assert pages[..i] == init;
    }
  }

  /** When the service honours `count`, sixteen pages of at most 200 posts give at most 3200. */
  lemma {:induction false} FlattenBound(pages: seq<seq<Status>>, limit: nat)
    requires forall i :: 0 <= i < |pages| ==> |pages[i]| <= limit
    ensures |Flatten(pages)| <= limit * |pages|
    decreases |pages|
  {
    if |pages| > 0 {
      FlattenBound(pages[..|pages| - 1], limit);
    }
  }

  /** The budget of the whole pull: at most `PageBudget * PageSize` posts. */
  lemma PullBound(handle: string, source: TimelineSource, requests: seq<Request>, statuses: seq<Status>)
    requires FollowsProtocol(handle, source, requests) && |requests| == PageBudget
    requires forall i :: 0 <= i < |requests| ==> |source(i, requests[i])| <= requests[i].count
    requires statuses == Flatten(Responses(source, requests))
    ensures |statuses| <= PageBudget * PageSize
  {
    FlattenBound(Responses(source, requests), PageSize);
  }

  /** The cursor only moves down when the service honours `max_id` (every post it returns
      for a request with a cursor has an id at or below it): after the first page each
      later cursor is at most the one before, and strictly below it after a non-empty page. */
  lemma CursorDecreases(handle: string, source: TimelineSource, requests: seq<Request>, i: nat)
    requires FollowsProtocol(handle, source, requests)
    requires forall k :: 0 <= k < |requests| && requests[k].maxId.Some? ==>
               forall s :: s in source(k, requests[k]) ==> s.id <= requests[k].maxId.value
    requires 1 <= i < |requests| - 1
    requires requests[i].maxId.Some?
    ensures requests[i + 1].maxId.Some?
    ensures source(i, requests[i]) != [] ==> requests[i + 1].maxId.value < requests[i].maxId.value
    ensures source(i, requests[i]) == [] ==> requests[i + 1].maxId == requests[i].maxId
  {
  }
}
