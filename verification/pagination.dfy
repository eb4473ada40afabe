/**
 * The paginated fetcher: one request per page against the audit-log endpoint,
 * following the `nextPage` link of each successful page until there is none.
 *
 * The server is a total function from a requested URL to its reply. The source's loop has no
 * bound; here every fetch comes with a ghost `bound` and a proof that the page chain ends
 * within that many requests (`EndsWithin`), and `ChainBoundIrrelevant` shows that the result
 * does not depend on which such bound is chosen.
 */
module Pagination {
  import opened Wrappers

  /** One element of `result.elements`: an audit record, with the two fields the connector reads. */
  datatype Record = Record(timestamp: Option<int>, descriptor: Option<string>)

  /** The query parameters of the first request. */
  datatype Query = Query(datacenter: string, activityType: string, pageSize: nat, startDate: int, endDate: int)

  /** A requested URL: the first page of a query, or a `nextPage` link as the server gave it. */
  datatype Url = FirstPage(query: Query) | Link(text: string)

  /** `result` of a 200 body: missing `elements` reads as [], missing `nextPage` as None. */
  datatype Page = Page(elements: seq<Record>, nextPage: Option<string>)

  /**
   * What a request yields: `Raised` when `session.get` or decoding a 200 body raises,
   * otherwise the status code and, for status 200, the decoded page.
   */
  datatype Reply = Raised | Reply(status: int, page: Page)

  /** One request of a fetch and the reply it got. */
  datatype Exchange = Exchange(url: Url, reply: Reply)

  /** What a fetch returns, or `FetchRaised` when an exception escapes it. */
  datatype FetchOutcome = Fetched(records: seq<Record>) | FetchRaised

  const PAGE_SIZE: nat := 1000

  /** The first page requested for one activity type over the window [startDate, endDate]. */
  function FirstPageUrl(datacenter: string, activityType: string, startDate: int, endDate: int): (url: Url)
    ensures url.FirstPage? && url.query.pageSize == PAGE_SIZE && url.query.activityType == activityType
    ensures url.query.startDate == startDate && url.query.endDate == endDate
  {
    FirstPage(Query(datacenter, activityType, PAGE_SIZE, startDate, endDate))
  }

  /** `while url`: a link continues the loop unless it is absent or the empty string. */
  predicate Continues(next: Option<string>) {
    next.Some? && next.value != ""
  }

  /** The request that follows `reply`, if any: only a status-200 page with a non-empty link has one. */
  function Follow(reply: Reply): (next: Option<Url>)
    ensures next.Some? <==> reply.Reply? && reply.status == 200 && Continues(reply.page.nextPage)
  {
    if reply.Reply? && reply.status == 200 && Continues(reply.page.nextPage)
    then Some(Link(reply.page.nextPage.value))
    else None
  }

  /** The requests a fetch starting at `url` makes, at most `bound` of them, with their replies. */
  function Chain(server: Url -> Reply, url: Url, bound: nat): (chain: seq<Exchange>)
    ensures |chain| <= bound
    ensures bound > 0 ==> |chain| >= 1 && chain[0] == Exchange(url, server(url))
    decreases bound
  {
    if bound == 0 then []
    else
      var reply := server(url);
      match Follow(reply)
      case None => [Exchange(url, reply)]
      case Some(next) => [Exchange(url, reply)] + Chain(server, next, bound - 1)
  }

  /** The page chain starting at `url` stops by itself within `bound` requests. */
  predicate EndsWithin(server: Url -> Reply, url: Url, bound: nat)
    decreases bound
  {
    bound > 0 &&
    match Follow(server(url))
    case None => true
    case Some(next) => EndsWithin(server, next, bound - 1)
  }

  /** Every first-page request of every query has a page chain that ends within `bound` requests. */
  ghost predicate Terminating(server: Url -> Reply, bound: nat) {
    forall q: Query :: EndsWithin(server, FirstPage(q), bound)
  }

  /** The URLs requested, in order. */
  function Urls(chain: seq<Exchange>): (urls: seq<Url>)
    ensures |urls| == |chain|
    decreases |chain|
  {
    if chain == [] then [] else [chain[0].url] + Urls(chain[1..])
  }

  /** The i-th URL requested is the URL of the i-th exchange. */
  lemma {:induction false} UrlsAt(chain: seq<Exchange>, i: nat)
    requires i < |chain|
    ensures Urls(chain)[i] == chain[i].url
    decreases i
  {
    if i > 0 {
      UrlsAt(chain[1..], i - 1);
    }
  }

  function Prepend(records: seq<Record>, outcome: FetchOutcome): FetchOutcome {
    match outcome
    case Fetched(rest) => Fetched(records + rest)
    case FetchRaised => FetchRaised
  }

  /**
   * What the loop returns after the exchanges of `chain`: the elements of each status-200
   * page are added in order; a non-200 reply ends the loop with what was gathered; a raised
   * exception loses everything.
   */
  function Collect(chain: seq<Exchange>): FetchOutcome
    decreases |chain|
  {
    if chain == [] then Fetched([])
    else match chain[0].reply
      case Raised => FetchRaised
      case Reply(status, page) =>
        if status == 200 then Prepend(page.elements, Collect(chain[1..])) else Fetched([])
  }

  /** Reference definition: the concatenation, in request order, of the elements of the status-200 pages. */
  function OkElements(chain: seq<Exchange>): seq<Record>
    decreases |chain|
  {
    if chain == [] then []
    else
      var reply := chain[0].reply;
      (if reply.Reply? && reply.status == 200 then reply.page.elements else []) + OkElements(chain[1..])
  }

  /** The sum over the status-200 pages of their element counts. */
  function ElementCount(chain: seq<Exchange>): nat
    decreases |chain|
  {
    if chain == [] then 0
    else
      var reply := chain[0].reply;
      (if reply.Reply? && reply.status == 200 then |reply.page.elements| else 0) + ElementCount(chain[1..])
  }

  /** Ordering: a fetch starts at its first URL, and each later request is the `nextPage` link of the page before. */
  lemma {:induction false} ChainFollowsLinks(server: Url -> Reply, url: Url, bound: nat, i: nat)
    requires 0 < i < |Chain(server, url, bound)|
    ensures var chain := Chain(server, url, bound);
      Follow(chain[i - 1].reply) == Some(chain[i].url)
    decreases bound
  {
    if i > 1 {
      ChainFollowsLinks(server, Follow(server(url)).value, bound - 1, i - 1);
    }
  }

  /** Only the first request of a fetch is a first-page URL; all later ones are links. */
  lemma {:induction false} ChainLaterRequestsAreLinks(server: Url -> Reply, url: Url, bound: nat, i: nat)
    requires 0 < i < |Chain(server, url, bound)|
    ensures Chain(server, url, bound)[i].url.Link?
  {
    ChainFollowsLinks(server, url, bound, i);
  }

  /** When the chain ends within the bound, its last reply has no follow-up: no link, a non-200 status, or an exception. */
  lemma {:induction false} ChainStops(server: Url -> Reply, url: Url, bound: nat)
    requires EndsWithin(server, url, bound)
    ensures var chain := Chain(server, url, bound);
      |chain| >= 1 && Follow(chain[|chain| - 1].reply) == None
    decreases bound
  {
    var reply := server(url);
    if Follow(reply).Some? {
      ChainStops(server, Follow(reply).value, bound - 1);
    }
  }

  /** Any bound within which the chain ends gives the same requests, hence the same result. */
  lemma {:induction false} ChainBoundIrrelevant(server: Url -> Reply, url: Url, bound: nat, larger: nat)
    requires EndsWithin(server, url, bound) && bound <= larger
    ensures Chain(server, url, bound) == Chain(server, url, larger)
    decreases bound
  {
    var reply := server(url);
    if Follow(reply).Some? {
      ChainBoundIrrelevant(server, Follow(reply).value, bound - 1, larger - 1);
    }
  }

  /**
   * Without an exception, the fetch returns the in-order concatenation of the elements of the
   * status-200 pages; an exception at any request makes the whole fetch raise.
   */
  lemma {:induction false} CollectChain(server: Url -> Reply, url: Url, bound: nat)
    ensures var chain := Chain(server, url, bound);
      Collect(chain) == if exists i :: 0 <= i < |chain| && chain[i].reply.Raised? then FetchRaised
                        else Fetched(OkElements(chain))
    decreases bound
  {
    if bound > 0 {
      var chain := Chain(server, url, bound);
      var reply := server(url);
      match Follow(reply)
      case None =>
        assert chain == [Exchange(url, reply)];
        assert chain[1..] == [];
      case Some(next) =>
        CollectChain(server, next, bound - 1);
        var rest := Chain(server, next, bound - 1);
        assert chain[1..] == rest;
        if exists i :: 0 <= i < |rest| && rest[i].reply.Raised? {
          var i :| 0 <= i < |rest| && rest[i].reply.Raised?;
          assert chain[i + 1].reply.Raised? by {
            assert chain[i + 1] == rest[i];
          }
        } else {
          assert forall i :: 0 <= i < |chain| ==> !chain[i].reply.Raised? by {
            forall i | 1 <= i < |chain|
              ensures !chain[i].reply.Raised?
            {
              assert chain[i] == rest[i - 1];
            }
          }
        }
    }
  }

  /** The number of records fetched is the sum of the per-page element counts. */
  lemma {:induction false} OkElementsCount(chain: seq<Exchange>)
    ensures |OkElements(chain)| == ElementCount(chain)
    decreases |chain|
  {
    if chain != [] {
      OkElementsCount(chain[1..]);
    }
  }

  /**
   * A non-200 reply ends the fetch: it is the last request made, and the result is exactly the
   * elements of the successful pages before it.
   */
  lemma {:induction false} FailureEndsFetch(server: Url -> Reply, url: Url, bound: nat, k: nat)
    requires k < |Chain(server, url, bound)|
    requires Chain(server, url, bound)[k].reply.Reply? && Chain(server, url, bound)[k].reply.status != 200
    ensures var chain := Chain(server, url, bound);
      k == |chain| - 1 && Collect(chain) == Fetched(OkElements(chain[..k]))
    decreases bound
  {
    var chain := Chain(server, url, bound);
    var reply := server(url);
    if k == 0 {
      assert Follow(reply) == None;
      assert chain[..0] == [];
    } else {
      var next := Follow(reply).value;
      var rest := Chain(server, next, bound - 1);
      assert chain == [Exchange(url, reply)] + rest;
      assert chain[k] == rest[k - 1];
      FailureEndsFetch(server, next, bound - 1, k - 1);
      assert chain[1..] == rest;
      assert chain[..k][1..] == rest[..k - 1];
    }
  }

  /**
   * Two status-200 pages, the first linking to the second and the second with no link,
   * yield the records of both in order, as many as the two pages hold together.
   */
  lemma TwoPages(server: Url -> Reply, url: Url, link: string, first: seq<Record>, second: seq<Record>, bound: nat)
    requires link != "" && bound >= 2
    requires server(url) == Reply(200, Page(first, Some(link)))
    requires server(Link(link)) == Reply(200, Page(second, None))
    ensures Collect(Chain(server, url, bound)) == Fetched(first + second)
    ensures ElementCount(Chain(server, url, bound)) == |first| + |second|
  {
    ChainUnfold(server, url, bound);
    ChainUnfold(server, Link(link), bound - 1);
    assert second + [] == second;
    var chain := Chain(server, url, bound);
    assert chain == [Exchange(url, server(url)), Exchange(Link(link), server(Link(link)))];
    assert chain[1..][1..] == [];
    assert ElementCount(chain[1..]) == |second| + ElementCount(chain[1..][1..]);
    assert ElementCount(chain) == |first| + ElementCount(chain[1..]);
  }

  /** A 500 on the second page: the records of the first page only, and no third request. */
  lemma SecondPageFails(server: Url -> Reply, url: Url, link: string, first: seq<Record>, page: Page, bound: nat)
    requires link != "" && bound >= 2
    requires server(url) == Reply(200, Page(first, Some(link)))
    requires server(Link(link)) == Reply(500, page)
    ensures |Chain(server, url, bound)| == 2
    ensures Collect(Chain(server, url, bound)) == Fetched(first)
  {
    assert Chain(server, url, bound) == [Exchange(url, server(url)), Exchange(Link(link), server(Link(link)))];
  }

  /** One turn of the loop: the first request, then the chain from its follow-up link if there is one. */
  lemma ChainUnfold(server: Url -> Reply, url: Url, fuel: nat)
    requires fuel > 0
    ensures var reply := server(url);
      var rest := if Follow(reply).Some? then Chain(server, Follow(reply).value, fuel - 1) else [];
      Chain(server, url, fuel) == [Exchange(url, reply)] + rest
      && Urls(Chain(server, url, fuel)) == [url] + Urls(rest)
      && Collect(Chain(server, url, fuel)) == match reply
         case Raised => FetchRaised
         case Reply(status, page) => if status == 200 then Prepend(page.elements, Collect(rest)) else Fetched([])
  {
    var chain := Chain(server, url, fuel);
    assert chain[1..] == if Follow(server(url)).Some? then Chain(server, Follow(server(url)).value, fuel - 1) else [];
  }

  lemma PrependPrepend(front: seq<Record>, middle: seq<Record>, outcome: FetchOutcome)
    ensures Prepend(front, Prepend(middle, outcome)) == Prepend(front + middle, outcome)
  {
    if outcome.Fetched? {
      assert front + (middle + outcome.records) == (front + middle) + outcome.records;
    }
  }

  /** The HTTP session: the server it talks to and the requests sent so far. */
  class Transport {
    const server: Url -> Reply
    var sent: seq<Url>

    constructor (server: Url -> Reply)
      ensures this.server == server && sent == []
    {
      this.server := server;
      sent := [];
    }

    /** `session.get(url)`: records the request and returns the server's reply. */
    method Get(url: Url) returns (reply: Reply)
      modifies this
      ensures reply == server(url)
      ensures sent == old(sent) + [url]
    {
      reply := server(url);
      sent := sent + [url];
    }
  }

  /**
   * `get_data_from_api_for_activity_type`: requests the first page of the window and keeps
   * following `nextPage` while pages come back with status 200; stops at the first other
   * status without retrying; an exception from a request propagates.
   */
  method FetchActivity(transport: Transport, datacenter: string, activityType: string,
                       startDate: int, endDate: int, ghost bound: nat)
    returns (outcome: FetchOutcome)
    requires EndsWithin(transport.server, FirstPageUrl(datacenter, activityType, startDate, endDate), bound)
    modifies transport
    ensures var chain := Chain(transport.server, FirstPageUrl(datacenter, activityType, startDate, endDate), bound);
      transport.sent == old(transport.sent) + Urls(chain) && outcome == Collect(chain)
  {
    var first := FirstPageUrl(datacenter, activityType, startDate, endDate);
    ghost var server := transport.server;
    ghost var chain := Chain(server, first, bound);
    var url: Option<Url> := Some(first);
    var results: seq<Record> := [];
    ghost var fuel := bound;
    ghost var pending := chain;
    assert Prepend([], Collect(chain)) == Collect(chain) by { PrependPrepend([], [], Collect(chain)); }
    while url.Some?
      invariant url.Some? ==> EndsWithin(server, url.value, fuel) && pending == Chain(server, url.value, fuel)
      invariant url.None? ==> pending == []
      invariant Collect(chain) == Prepend(results, Collect(pending))
      invariant old(transport.sent) + Urls(chain) == transport.sent + Urls(pending)
      decreases fuel
    {
      var current := url.value;
      ChainUnfold(server, current, fuel);
      ghost var sentBefore := transport.sent;
      var reply := transport.Get(current);
      ghost var rest := if Follow(reply).Some? then Chain(server, Follow(reply).value, fuel - 1) else [];
      assert sentBefore + Urls(pending) == transport.sent + Urls(rest) by {
        assert Urls(pending) == [current] + Urls(rest);
        assert transport.sent == sentBefore + [current];
      }
      match reply
      case Raised =>
        return FetchRaised;
      case Reply(status, page) =>
        if status == 200 {
          PrependPrepend(results, page.elements, Collect(rest));
          results := results + page.elements;
          url := if Continues(page.nextPage) then Some(Link(page.nextPage.value)) else None;
          fuel := fuel - 1;
          pending := rest;
        } else {
          assert rest == [] && Collect(chain) == Fetched(results + []);
          break;
        }
    }
    assert results + [] == results;
    outcome := Fetched(results);
  }
}
