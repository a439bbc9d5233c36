/** `_get_elements` of pywebcoos/API.py: the pagination loop that gathers the
    elements of a service between two instants, and the minute-interval
    filter applied to them. The server is an input: the responses to
    successive requests, in request order. */
module Elements {

  import opened Errors

  /** An element, reduced to what the client reads from it: the minute of
      its start instant and its optional download URL. */
  datatype Element = Element(minute: int, url: Option<string>)

  /** The query parameters of the first request. */
  datatype Params = Params(startingAfter: string, startingBefore: string, service: string)

  /** A request: a URL and, on the first request only, the parameters. */
  datatype Request = Request(url: string, params: Option<Params>)

  /** A response: its status code, its `results` and its `pagination.next`
      link (absent when the response carries none). */
  datatype Page = Page(status: int, results: seq<Element>, next: Option<string>)

  /** The loop asks for another page: the response succeeded and its next
      link is present and non-empty (Python truthiness). */
  predicate Continues(p: Page) {
    p.status == 200 && p.next.Some? && p.next.value != ""
  }

  /** The server eventually answers with a page that ends the loop. */
  predicate Terminates(pages: seq<Page>) {
    exists k :: 0 <= k < |pages| && !Continues(pages[k])
  }

  /** The position of the page that ends the loop. */
  function StopIndex(pages: seq<Page>): (k: nat)
    requires Terminates(pages)
    ensures k < |pages| && !Continues(pages[k])
    ensures forall j :: 0 <= j < k ==> Continues(pages[j])
  {
    if !Continues(pages[0]) then 0
    else
      var m :| 0 <= m < |pages| && !Continues(pages[m]);
      assert 0 <= m - 1 < |pages[1..]| && !Continues(pages[1..][m - 1]);
      var k := 1 + StopIndex(pages[1..]);
      assert forall j :: 1 <= j < k ==> pages[j] == pages[1..][j - 1];
      k
  }

  /** The results of the pages the loop reads, concatenated. */
  function Collected(pages: seq<Page>): seq<Element>
  {
    if pages == [] || pages[0].status != 200 then []
    else pages[0].results + (if Continues(pages[0]) then Collected(pages[1..]) else [])
  }

  /** The requests the loop makes, starting with `first`; each later one
      goes to the previous response's next link without parameters. */
  function Requests(pages: seq<Page>, first: Request): seq<Request>
  {
    if pages == [] then []
    else [first] + (if Continues(pages[0]) then Requests(pages[1..], Request(pages[0].next.value, None)) else [])
  }

  /** The results of a run of pages, concatenated. */
  function Flatten(pages: seq<Page>): (elements: seq<Element>)
    ensures pages == [] ==> elements == []
  {
    if pages == [] then [] else Flatten(pages[..|pages| - 1]) + pages[|pages| - 1].results
  }

  /** The first request: the elements endpoint, with the bounds and the slug. */
  function FirstRequest(apiBase: string, serviceSlug: string, start: string, stop: string): Request {
    Request(apiBase + "/elements/", Some(Params(start, stop, serviceSlug)))
  }

  /** `_get_elements`: the pagination loop from the first request. */
  method FetchElements(apiBase: string, serviceSlug: string, start: string, stop: string, pages: seq<Page>)
    returns (elements: seq<Element>, requests: seq<Request>)
    requires Terminates(pages)
    ensures elements == Collected(pages)
    ensures requests == Requests(pages, FirstRequest(apiBase, serviceSlug, start, stop))
  {
    elements, requests := FetchFrom(FirstRequest(apiBase, serviceSlug, start, stop), pages);
  }

  /** The pagination loop, from the request `first`. `remaining` holds the
      responses the server has yet to send. */
  method FetchFrom(first: Request, pages: seq<Page>) returns (elements: seq<Element>, requests: seq<Request>)
    requires Terminates(pages)
    ensures elements == Collected(pages)
    ensures requests == Requests(pages, first)
  {
    var url := first.url;
    var params := first.params;
    elements := [];
    requests := [];
    var remaining := pages;
    while true
      invariant Terminates(remaining)
      invariant Collected(pages) == elements + Collected(remaining)
      invariant Requests(pages, first) == requests + Requests(remaining, Request(url, params))
      decreases |remaining|
    {
      var response := remaining[0];
      var request := Request(url, params);
      TurnFacts(remaining, request);
      requests := requests + [request];
      if response.status != 200 {
        break;
      }
      elements := elements + response.results;
      if response.next.None? || response.next.value == "" {
        break;
      }
      url := response.next.value;
      params := None;
      TerminatesLater(remaining);
      remaining := remaining[1..];
    }
  }

  /** One turn of the loop: what the first response adds. */
  lemma TurnFacts(pages: seq<Page>, request: Request)
    requires pages != []
    ensures pages[0].status != 200 ==> Collected(pages) == []
    ensures !Continues(pages[0]) ==> Requests(pages, request) == [request]
    ensures pages[0].status == 200 && !Continues(pages[0]) ==> Collected(pages) == pages[0].results
    ensures Continues(pages[0]) ==> Collected(pages) == pages[0].results + Collected(pages[1..])
    ensures Continues(pages[0]) ==>
      Requests(pages, request) == [request] + Requests(pages[1..], Request(pages[0].next.value, None))
  {
  }

  /** A page that continues is not the last one the server sends. */
  lemma TerminatesLater(pages: seq<Page>)
    requires Terminates(pages) && Continues(pages[0])
    ensures Terminates(pages[1..])
  {
    var k :| 0 <= k < |pages| && !Continues(pages[k]);
    assert pages[1..][k - 1] == pages[k];
  }

  /** What the loop gathers: every page up to the one that ends it, that
      last page's results only when it succeeded. A failed page adds
      nothing and raises nothing. */
  lemma {:induction false} CollectedUpToStop(pages: seq<Page>)
    requires Terminates(pages)
    ensures var k := StopIndex(pages);
      Collected(pages) == Flatten(pages[..k]) + (if pages[k].status == 200 then pages[k].results else [])
    decreases |pages|
  {
    var k := StopIndex(pages);
    if k > 0 {
      var m :| 0 <= m < |pages| && !Continues(pages[m]);
      assert 0 <= m - 1 < |pages[1..]| && !Continues(pages[1..][m - 1]);
      assert StopIndex(pages[1..]) == k - 1;
      CollectedUpToStop(pages[1..]);
      assert pages[1..][..k - 1] == pages[1..k];
      assert pages[1..][k - 1] == pages[k];
      FlattenFront(pages[..k]);
      assert pages[..k][1..] == pages[1..k];
    }
  }

  /** Flatten read from the front. */
  lemma {:induction false} FlattenFront(pages: seq<Page>)
    requires pages != []
    ensures Flatten(pages) == pages[0].results + Flatten(pages[1..])
    decreases |pages|
  {
    if |pages| > 1 {
      var n := |pages| - 1;
      FlattenFront(pages[..n]);
      assert pages[..n][1..] == pages[1..][..|pages[1..]| - 1];
      assert pages[..n][0] == pages[0];
    } else {
      assert pages[..0] == [];
    }
  }

  /** The responses after the one that ends the loop are never read. */
  lemma {:induction false} LaterPagesIgnored(pages: seq<Page>, rest: seq<Page>, first: Request)
    requires Terminates(pages)
    ensures Collected(pages + rest) == Collected(pages)
    ensures Requests(pages + rest, first) == Requests(pages, first)
    decreases |pages|
  {
    assert (pages + rest)[0] == pages[0];
    if Continues(pages[0]) {
      var m :| 0 <= m < |pages| && !Continues(pages[m]);
      assert 0 <= m - 1 < |pages[1..]| && !Continues(pages[1..][m - 1]);
      assert (pages + rest)[1..] == pages[1..] + rest;
      LaterPagesIgnored(pages[1..], rest, Request(pages[0].next.value, None));
    }
  }

  /** One request per page read; the first carries the parameters, each
      later one goes to the previous page's next link with none. */
  lemma {:induction false} RequestsFollowLinks(pages: seq<Page>, first: Request)
    requires Terminates(pages)
    ensures var rs := Requests(pages, first);
      && |rs| == StopIndex(pages) + 1
      && rs[0] == first
      && forall i :: 0 <= i < |rs| - 1 ==> rs[i + 1] == Request(pages[i].next.value, None)
    decreases |pages|
  {
    if Continues(pages[0]) {
      var m :| 0 <= m < |pages| && !Continues(pages[m]);
      assert 0 <= m - 1 < |pages[1..]| && !Continues(pages[1..][m - 1]);
      var next := Request(pages[0].next.value, None);
      RequestsFollowLinks(pages[1..], next);
      var rs := Requests(pages, first);
      var tail := Requests(pages[1..], next);
      assert rs == [first] + tail;
      forall i | 0 <= i < |rs| - 1 ensures rs[i + 1] == Request(pages[i].next.value, None) {
        if i > 0 {
          assert rs[i + 1] == tail[i];
          assert pages[i] == pages[1..][i - 1];
        }
      }
    }
  }

  // ---------------------------------------------------------------------
  // The interval filter
  // ---------------------------------------------------------------------

  /** Python's `minute % interval == 0` for a non-zero interval: whether
      the interval divides the minute (Python's floored remainder and
      Dafny's Euclidean one are zero for the same operands). */
  predicate OnInterval(minute: int, interval: int)
    requires interval != 0
  {
    minute % interval == 0
  }

  /** The elements on the interval, in input order. */
  function Keep(elements: seq<Element>, interval: int): (kept: seq<Element>)
    requires interval != 0
    ensures |kept| <= |elements|
  {
    if elements == [] then []
    else (if OnInterval(elements[0].minute, interval) then [elements[0]] else []) + Keep(elements[1..], interval)
  }

  /** An element is kept iff it is in the input and on the interval. */
  lemma {:induction false} KeepMembers(elements: seq<Element>, interval: int)
    requires interval != 0
    ensures forall x :: x in Keep(elements, interval) <==> x in elements && OnInterval(x.minute, interval)
    decreases |elements|
  {
    if elements != [] {
      KeepMembers(elements[1..], interval);
      assert elements == [elements[0]] + elements[1..];
    }
  }

  /** The filter loop: an interval of 0 raises ZeroDivisionError at the
      first element, so only when there is one. */
  function Filtered(elements: seq<Element>, interval: int): (r: Result<seq<Element>>)
    ensures r.Err? <==> interval == 0 && elements != []
    ensures r.Err? ==> r.error == ZeroDivisionError
    ensures r.Ok? && interval == 0 ==> r.value == []
  {
    if interval == 0 then (if elements == [] then Ok([]) else Err(ZeroDivisionError))
    else Ok(Keep(elements, interval))
  }

  /** The filter loop of `_get_elements`. */
  method FilterByInterval(elements: seq<Element>, interval: int) returns (r: Result<seq<Element>>)
    ensures r == Filtered(elements, interval)
    ensures r.Ok? && interval != 0 ==> r.value == Keep(elements, interval)
  {
    ghost var all := if interval == 0 then [] else Keep(elements, interval);
    var kept: seq<Element> := [];
    for i := 0 to |elements|
      invariant interval == 0 ==> i == 0 && kept == []
      invariant interval != 0 ==> all == kept + Keep(elements[i..], interval)
    {
      if interval == 0 {
        return Err(ZeroDivisionError);
      }
      KeepStep(elements, i, interval, kept, all);
      if elements[i].minute % interval == 0 {
        kept := kept + [elements[i]];
      }
    }
    if interval != 0 {
      assert elements[|elements|..] == [];
      assert kept + Keep([], interval) == kept;
    }
    r := Ok(kept);
  }

  /** One turn of the filter loop, read off `Keep`. */
  lemma KeepStep(elements: seq<Element>, i: int, interval: int, kept: seq<Element>, all: seq<Element>)
    requires interval != 0 && 0 <= i < |elements|
    requires all == kept + Keep(elements[i..], interval)
    ensures OnInterval(elements[i].minute, interval) ==> all == (kept + [elements[i]]) + Keep(elements[i + 1..], interval)
    ensures !OnInterval(elements[i].minute, interval) ==> all == kept + Keep(elements[i + 1..], interval)
  {
    assert elements[i..][0] == elements[i];
    assert elements[i..][1..] == elements[i + 1..];
  }

  /** `a` occurs in `b` in order, possibly with gaps. */
  predicate IsSubsequence(a: seq<Element>, b: seq<Element>)
    decreases |b|
  {
    if a == [] then true
    else if b == [] then false
    else if a[0] == b[0] then IsSubsequence(a[1..], b[1..])
    else IsSubsequence(a, b[1..])
  }

  lemma {:induction false} KeepIsSubsequence(elements: seq<Element>, interval: int)
    requires interval != 0
    ensures IsSubsequence(Keep(elements, interval), elements)
    decreases |elements|
  {
    if elements != [] {
      KeepIsSubsequence(elements[1..], interval);
      var kept := Keep(elements, interval);
      if OnInterval(elements[0].minute, interval) {
        assert kept[0] == elements[0] && kept[1..] == Keep(elements[1..], interval);
      } else if kept != [] {
        // every kept element is on the interval, the head is not
        assert kept == Keep(elements[1..], interval);
        KeepMembers(elements, interval);
        assert kept[0] in kept;
        assert kept[0] != elements[0];
      }
    }
  }

  /** Filtering distributes over concatenation, so order is preserved. */
  lemma {:induction false} KeepAppend(a: seq<Element>, b: seq<Element>, interval: int)
    requires interval != 0
    ensures Keep(a + b, interval) == Keep(a, interval) + Keep(b, interval)
    decreases |a|
  {
    if a != [] {
      assert (a + b)[0] == a[0];
      assert (a + b)[1..] == a[1..] + b;
      KeepAppend(a[1..], b, interval);
    } else {
      assert a + b == b;
    }
  }

  /** An interval of one minute keeps every element. */
  lemma {:induction false} KeepEveryMinute(elements: seq<Element>)
    ensures Keep(elements, 1) == elements
    decreases |elements|
  {
    if elements != [] {
      KeepEveryMinute(elements[1..]);
    }
  }

  /** Filtering twice by the same interval is filtering once. */
  lemma {:induction false} KeepIdempotent(elements: seq<Element>, interval: int)
    requires interval != 0
    ensures Keep(Keep(elements, interval), interval) == Keep(elements, interval)
    decreases |elements|
  {
    if elements != [] {
      KeepIdempotent(elements[1..], interval);
      var rest := Keep(elements[1..], interval);
      if OnInterval(elements[0].minute, interval) {
        var kept := [elements[0]] + rest;
        assert Keep(elements, interval) == kept;
        assert kept[0] == elements[0] && kept[1..] == rest;
        assert Keep(kept, interval) == [elements[0]] + Keep(rest, interval);
      } else {
        assert Keep(elements, interval) == rest;
      }
    }
  }

  /** Within an hour, an interval of 15 keeps exactly the quarter hours. */
  lemma QuarterHours(elements: seq<Element>)
    requires forall i :: 0 <= i < |elements| ==> 0 <= elements[i].minute < 60
    ensures forall x :: x in Keep(elements, 15) <==> x in elements && x.minute in {0, 15, 30, 45}
  {
    KeepMembers(elements, 15);
    forall x | x in elements
      ensures OnInterval(x.minute, 15) <==> x.minute in {0, 15, 30, 45}
    {
      QuarterMinute(x.minute);
    }
  }

  lemma QuarterMinute(m: int)
    requires 0 <= m < 60
    ensures m % 15 == 0 <==> m == 0 || m == 15 || m == 30 || m == 45
  {
    if m < 15 {
      assert m % 15 == m;
    } else if m < 30 {
      assert m % 15 == m - 15;
    } else if m < 45 {
      assert m % 15 == m - 30;
    } else {
      assert m % 15 == m - 45;
    }
  }

  /** Minutes run from 0 to 59, so any interval of an hour or more keeps
      only the on-the-hour elements: 120 gives hourly images, not two-hourly. */
  lemma LongIntervalIsHourly(elements: seq<Element>, interval: int)
    requires interval >= 60
    requires forall i :: 0 <= i < |elements| ==> 0 <= elements[i].minute < 60
    ensures forall x :: x in Keep(elements, interval) <==> x in elements && x.minute == 0
  {
    KeepMembers(elements, interval);
    forall x | x in elements
      ensures OnInterval(x.minute, interval) <==> x.minute == 0
    {
      var i :| 0 <= i < |elements| && elements[i] == x;
      MinuteBelowInterval(x.minute, interval);
    }
  }

  /** A minute below the interval is on it only when it is 0. */
  lemma MinuteBelowInterval(minute: int, interval: int)
    requires 0 <= minute < interval
    ensures OnInterval(minute, interval) <==> minute == 0
  {
    assert minute == interval * (minute / interval) + minute % interval;
    if minute > 0 {
      assert minute / interval == 0;
    }
  }
}
