/** The deep search of lib/searchAndContent.js (`searchSapiDeeper`): repeated searches, each
    one page further on, until the depth budget, the index or the time budget runs out; and
    `extractArticles`, which flattens the pages' results. The search itself is an oracle
    from the requested offset to the page the search API answers with, and the clock is an
    oracle from the call number to the milliseconds elapsed since the first call started. */
module Paginator {
  import opened Common

  const DefaultMaxDurationMs := 3000
  const DefaultMaxDepth := 10

  /** What the search API answers: the offset and page size it echoes back in its result
      context, the total number of hits in the index, and the page of results (absent when
      the response carries no `results` property). */
  datatype Page<T> = Page(offset: int, maxResults: int, indexCount: int, results: Option<seq<T>>)

  /** The caller's parameters as far as the paginator reads them; everything else in the
      parameter bag is passed to the search unchanged, so it is part of the oracle. */
  datatype DeeperParams = DeeperParams(offset: Option<int>, maxDurationMs: Option<int>)

  /** A search item: the page, annotated with the depth budget it was fetched under, the
      echoed offset and page size, the hit total, the page's size, the hits still to come
      and the time elapsed so far. */
  datatype SearchItem<T> = SearchItem(
    page: Page<T>,
    maxDepth: int,
    offset: int,
    maxResults: int,
    indexCount: int,
    thisNumResults: nat,
    remainingResults: int,
    durationMs: int)

  function Max(a: int, b: int): int { if a >= b then a else b }

  /** The annotations `searchSapiDeeper` adds to a page. */
  function Annotate<T>(page: Page<T>, maxDepth: int, durationMs: int): (item: SearchItem<T>)
    ensures item.page == page && item.maxDepth == maxDepth && item.durationMs == durationMs
    ensures item.offset == page.offset && item.maxResults == page.maxResults && item.indexCount == page.indexCount
    ensures item.thisNumResults == if page.results.Some? then |page.results.value| else 0
    ensures item.remainingResults >= 0
    ensures item.remainingResults >= item.indexCount - item.thisNumResults - item.offset
    ensures item.remainingResults == 0 || item.remainingResults == item.indexCount - item.thisNumResults - item.offset
  {
    var n := if page.results.Some? then |page.results.value| else 0;
    SearchItem(page, maxDepth, page.offset, page.maxResults, page.indexCount, n,
               Max(0, page.indexCount - n - page.offset), durationMs)
  }

  /** The three reasons to stop after a page: no depth left for another search, nothing left
      in the index, or the time budget spent. */
  predicate Curtailed<T>(item: SearchItem<T>, maxDurationMs: int) {
    item.maxDepth < 2 || item.remainingResults <= 0 || item.durationMs >= maxDurationMs
  }

  /** The pages `searchSapiDeeper` returns when called (as its `call`-th recursive call) with
      the offset parameter `offset` and depth budget `maxDepth`. */
  function Deeper<T>(search: Option<int> -> Page<T>, elapsed: nat -> int, offset: Option<int>,
                     maxDepth: int, maxDurationMs: int, call: nat): seq<SearchItem<T>>
    decreases maxDepth
  {
    if maxDepth < 1 then []
    else
      var item := Annotate(search(offset), maxDepth, elapsed(call));
      if Curtailed(item, maxDurationMs) then [item]
      else [item] + Deeper(search, elapsed, Some(offset.GetOr(0) + item.maxResults), maxDepth - 1, maxDurationMs, call + 1)
  }

  /** `searchSapiDeeper(params, maxDepth)`, with the recursion unrolled into a loop. */
  method SearchSapiDeeper<T>(search: Option<int> -> Page<T>, elapsed: nat -> int, params: DeeperParams, maxDepth: int)
    returns (items: seq<SearchItem<T>>)
    ensures items == Deeper(search, elapsed, params.offset, maxDepth, params.maxDurationMs.GetOr(DefaultMaxDurationMs), 0)
  {
    var maxDurationMs := params.maxDurationMs.GetOr(DefaultMaxDurationMs);
    items := [];
    var offset := params.offset;
    var depth := maxDepth;
    var call: nat := 0;
    var done := maxDepth < 1;
    while !done
      invariant done ==> items == Deeper(search, elapsed, params.offset, maxDepth, maxDurationMs, 0)
      invariant !done ==> depth >= 1 && items + Deeper(search, elapsed, offset, depth, maxDurationMs, call)
                                        == Deeper(search, elapsed, params.offset, maxDepth, maxDurationMs, 0)
      decreases if done then 0 else depth, !done
    {
      var item := Annotate(search(offset), depth, elapsed(call));
      if Curtailed(item, maxDurationMs) {
        items := items + [item];
        done := true;
      } else {
        var rest := Deeper(search, elapsed, Some(offset.GetOr(0) + item.maxResults), depth - 1, maxDurationMs, call + 1);
        assert items + Deeper(search, elapsed, offset, depth, maxDurationMs, call) == (items + [item]) + rest;
        items := items + [item];
        offset := Some(offset.GetOr(0) + item.maxResults);
        depth := depth - 1;
        call := call + 1;
        // The recursive call's `maxDepth < 1` guard. A page that was not curtailed had a depth
        // of 2 or more, so the guard never stops the loop here.
        if depth < 1 {
          done := true;
        }
      }
    }
  }

  /** A depth budget below 1 returns no pages and makes no search. */
  lemma NoDepthNoSearch<T>(search: Option<int> -> Page<T>, elapsed: nat -> int, offset: Option<int>,
                           maxDepth: int, maxDurationMs: int, call: nat)
    requires maxDepth < 1
    ensures Deeper(search, elapsed, offset, maxDepth, maxDurationMs, call) == []
  {
  }

  /** Otherwise between 1 and `maxDepth` pages come back; each page but the last was followed
      by another search because none of the three stop conditions held, and after the last
      one at least one of them did. */
  lemma {:induction false} DeeperShape<T>(search: Option<int> -> Page<T>, elapsed: nat -> int, offset: Option<int>,
                                          maxDepth: int, maxDurationMs: int, call: nat)
    requires maxDepth >= 1
    ensures 1 <= |Deeper(search, elapsed, offset, maxDepth, maxDurationMs, call)| <= maxDepth
    ensures forall i :: 0 <= i < |Deeper(search, elapsed, offset, maxDepth, maxDurationMs, call)| ==>
              (Curtailed(Deeper(search, elapsed, offset, maxDepth, maxDurationMs, call)[i], maxDurationMs)
               <==> i == |Deeper(search, elapsed, offset, maxDepth, maxDurationMs, call)| - 1)
    decreases maxDepth
  {
    var r := Deeper(search, elapsed, offset, maxDepth, maxDurationMs, call);
    var item := Annotate(search(offset), maxDepth, elapsed(call));
    if !Curtailed(item, maxDurationMs) {
      var next := Some(offset.GetOr(0) + item.maxResults);
      DeeperShape(search, elapsed, next, maxDepth - 1, maxDurationMs, call + 1);
      var rest := Deeper(search, elapsed, next, maxDepth - 1, maxDurationMs, call + 1);
      assert r == [item] + rest;
      forall i | 0 <= i < |r| ensures Curtailed(r[i], maxDurationMs) <==> i == |r| - 1 {
        if i > 0 { assert r[i] == rest[i - 1]; }
      }
    }
  }

  /** The offset parameter of the `i`-th search: the caller's for the first, and for each
      later one the previous offset (0 when absent) plus the page size the previous page
      echoed. */
  function RequestOffset<T>(start: Option<int>, items: seq<SearchItem<T>>, i: nat): Option<int>
    requires i <= |items|
  {
    if i == 0 then start else Some(RequestOffset(start, items, i - 1).GetOr(0) + items[i - 1].maxResults)
  }

  lemma {:induction false} RequestOffsetShift<T>(start: Option<int>, item: SearchItem<T>, rest: seq<SearchItem<T>>, i: nat)
    requires i <= |rest|
    ensures RequestOffset(Some(start.GetOr(0) + item.maxResults), rest, i) == RequestOffset(start, [item] + rest, i + 1)
  {
    if i > 0 {
      RequestOffsetShift(start, item, rest, i - 1);
      assert ([item] + rest)[i] == rest[i - 1];
    }
  }

  /** The `i`-th page is the search's answer for the `i`-th request offset, fetched with a
      depth budget of `maxDepth - i` and timed by the clock's `i`-th reading. */
  lemma {:induction false} DeeperThreadsOffsets<T>(search: Option<int> -> Page<T>, elapsed: nat -> int, offset: Option<int>,
                                                   maxDepth: int, maxDurationMs: int, call: nat, i: nat)
    requires i < |Deeper(search, elapsed, offset, maxDepth, maxDurationMs, call)|
    ensures Deeper(search, elapsed, offset, maxDepth, maxDurationMs, call)[i]
         == Annotate(search(RequestOffset(offset, Deeper(search, elapsed, offset, maxDepth, maxDurationMs, call), i)),
                     maxDepth - i, elapsed(call + i))
    decreases i
  {
    if i > 0 {
      var r := Deeper(search, elapsed, offset, maxDepth, maxDurationMs, call);
      var item := Annotate(search(offset), maxDepth, elapsed(call));
      var next := Some(offset.GetOr(0) + item.maxResults);
      var rest := Deeper(search, elapsed, next, maxDepth - 1, maxDurationMs, call + 1);
      assert r == [item] + rest;
      DeeperThreadsOffsets(search, elapsed, next, maxDepth - 1, maxDurationMs, call + 1, i - 1);
      RequestOffsetShift(offset, item, rest, i - 1);
      assert r[i] == rest[i - 1];
    }
  }

  /** An index of 25 hits served 10 at a time, answering promptly. */
  function ExampleSearch(offset: Option<int>): Page<int> {
    var o := offset.GetOr(0);
    var n := if 25 - o < 0 then 0 else if 25 - o > 10 then 10 else 25 - o;
    Page(o, 10, 25, Some(seq(n, i => o + i)))
  }

  function Prompt(call: nat): int { 0 }

  /** With that index, the default depth takes three searches (offsets 0, 10 and 20). */
  lemma ExampleThreePages()
    ensures |Deeper(ExampleSearch, Prompt, None, DefaultMaxDepth, DefaultMaxDurationMs, 0)| == 3
  {
    var p0 := Annotate(ExampleSearch(None), 10, 0);
    assert p0.remainingResults == 15;
    var p1 := Annotate(ExampleSearch(Some(10)), 9, 0);
    assert p1.remainingResults == 5;
    var p2 := Annotate(ExampleSearch(Some(20)), 8, 0);
    assert p2.remainingResults == 0;
    assert Deeper(ExampleSearch, Prompt, Some(20), 8, DefaultMaxDurationMs, 2) == [p2];
  }

  /** A depth budget of 2 stops after the second search even though hits remain. */
  lemma ExampleDepthTwo()
    ensures |Deeper(ExampleSearch, Prompt, None, 2, DefaultMaxDurationMs, 0)| == 2
  {
    var p0 := Annotate(ExampleSearch(None), 2, 0);
    assert p0.remainingResults == 15;
    var p1 := Annotate(ExampleSearch(Some(10)), 1, 0);
    assert Deeper(ExampleSearch, Prompt, Some(10), 1, DefaultMaxDurationMs, 1) == [p1];
  }

  // ---------------------------------------------------------------------------
  // extractArticles

  /** The number of results the pages hold. */
  function TotalResults<T>(items: seq<SearchItem<T>>): nat {
    if |items| == 0 then 0
    else
      var last := items[|items| - 1].page.results;
      TotalResults(items[..|items| - 1]) + (if last.Some? then |last.value| else 0)
  }

  /** `extractArticles`: every page's results, page by page, in order. Reading the results of
      a page that has none throws in the source; here it is an error. */
  function ExtractArticles<T>(items: seq<SearchItem<T>>): (r: Result<seq<T>>)
    ensures r.Ok? <==> forall i :: 0 <= i < |items| ==> items[i].page.results.Some?
    ensures r.Ok? ==> |r.value| == TotalResults(items)
  {
    if |items| == 0 then Ok([])
    else
      var init := ExtractArticles(items[..|items| - 1]);
      var last := items[|items| - 1].page.results;
      if init.Err? then init
      else if last.None? then Err("results of a search page are missing")
      else Ok(init.value + last.value)
  }

  /** Extracting from two runs of pages gives the first run's articles followed by the
      second's. */
  lemma {:induction false} ExtractArticlesAppend<T>(a: seq<SearchItem<T>>, b: seq<SearchItem<T>>)
    requires ExtractArticles(a).Ok? && ExtractArticles(b).Ok?
    ensures ExtractArticles(a + b) == Ok(ExtractArticles(a).value + ExtractArticles(b).value)
    decreases |b|
  {
    if |b| == 0 {
      assert a + b == a;
      assert ExtractArticles(a).value + [] == ExtractArticles(a).value;
    } else {
      var b' := b[..|b| - 1];
      assert (a + b)[..|a + b| - 1] == a + b';
      assert (a + b)[|a + b| - 1] == b[|b| - 1];
      ExtractArticlesAppend(a, b');
      var x, y, z := ExtractArticles(a).value, ExtractArticles(b').value, b[|b| - 1].page.results.value;
      assert ExtractArticles(b) == Ok(y + z);
      assert ExtractArticles(a + b) == Ok((x + y) + z);
      assert (x + y) + z == x + (y + z);
    }
  }

  /** A single page contributes exactly its results. */
  lemma ExtractArticlesSingle<T>(item: SearchItem<T>)
    requires item.page.results.Some?
    ensures ExtractArticles([item]) == Ok(item.page.results.value)
  {
    assert [item][..|[item]| - 1] == [];
    assert ExtractArticles([item][..|[item]| - 1]) == Ok([]);
    assert [] + item.page.results.value == item.page.results.value;
  }
}
