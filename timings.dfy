/** The fetch-timing log and its summariser (lib/searchAndContent.js, `FetchTimings`,
    `recordFetchTiming` and `summariseFetchTimings`). The module-level `FetchTimings` object
    becomes an explicitly owned log: a map from HTTP method to the list of its timings, plus
    the order in which the methods were first seen (the key order of the object). */
module FetchTimings {
  import opened Common

  /** One recorded call: elapsed milliseconds, whether the response was ok, and its status. */
  datatype Timing = Timing(timing: int, resOk: bool, status: int, statusText: string)

  datatype NotOkStatus = NotOkStatus(status: int, statusText: string)

  /** The running accumulators of the summariser's inner loop. `max` starts at 0 and `min` at
      the sentinel -1, as in the source. */
  datatype Acc = Acc(numOk: nat, numNotOk: nat, sum: int, max: int, min: int, statusesNotOk: seq<NotOkStatus>)

  /** One method's summary. The source's `mean` is `sum / count`, a floating-point division;
      it is kept here as the pair (`sum`, `count`). */
  datatype Summary = Summary(
    totalCount: nat, count: nat, sum: int, max: int, min: int,
    numOk: nat, numNotOk: nat, statusesNotOk: seq<NotOkStatus>)

  function Max(a: int, b: int): int { if a >= b then a else b }
  function Min(a: int, b: int): int { if a <= b then a else b }

  /** One iteration of the summariser's `forEach`. */
  function Step(a: Acc, t: Timing): Acc {
    Acc(
      if t.resOk then a.numOk + 1 else a.numOk,
      if t.resOk then a.numNotOk else a.numNotOk + 1,
      a.sum + t.timing,
      Max(a.max, t.timing),
      if a.min == -1 then t.timing else Min(a.min, t.timing),
      if t.resOk then a.statusesNotOk else a.statusesNotOk + [NotOkStatus(t.status, t.statusText)])
  }

  /** The accumulators after the loop has run over `w`. */
  function Accumulate(w: seq<Timing>): Acc {
    if |w| == 0 then Acc(0, 0, 0, 0, -1, [])
    else Step(Accumulate(w[..|w| - 1]), w[|w| - 1])
  }

  function MakeSummary(w: seq<Timing>, totalCount: nat): Summary {
    var a := Accumulate(w);
    Summary(totalCount, |w|, a.sum, a.max, a.min, a.numOk, a.numNotOk, a.statusesNotOk)
  }

  /** `s.slice(start)` for an integer `start`: a negative start counts from the end. */
  function SliceFrom<T>(s: seq<T>, start: int): seq<T> {
    if start < 0 then s[Max(|s| + start, 0)..] else s[Min(start, |s|)..]
  }

  /** For a positive `history`, `slice(-history)` keeps the last `history` entries (or all). */
  lemma RecentWindow<T>(s: seq<T>, history: int)
    requires history > 0
    ensures |SliceFrom(s, -history)| == Min(|s|, history)
    ensures SliceFrom(s, -history) == s[|s| - Min(|s|, history)..]
  {
  }

  /** The ok and not-ok tallies add up to the window's size, and one not-ok status is kept per
      not-ok call. */
  lemma {:induction false} TalliesAddUp(w: seq<Timing>)
    ensures Accumulate(w).numOk + Accumulate(w).numNotOk == |w|
    ensures |Accumulate(w).statusesNotOk| == Accumulate(w).numNotOk
  {
    if |w| > 0 { TalliesAddUp(w[..|w| - 1]); }
  }

  /** The not-ok statuses are those of the not-ok calls, in call order. */
  lemma {:induction false} StatusesAreNotOkCalls(w: seq<Timing>)
    ensures Accumulate(w).statusesNotOk
         == seq(|NotOkCalls(w)|, i requires 0 <= i < |NotOkCalls(w)| => NotOkStatus(NotOkCalls(w)[i].status, NotOkCalls(w)[i].statusText))
  {
    if |w| > 0 { StatusesAreNotOkCalls(w[..|w| - 1]); }
  }

  function NotOkCalls(w: seq<Timing>): seq<Timing> {
    if |w| == 0 then []
    else NotOkCalls(w[..|w| - 1]) + (if w[|w| - 1].resOk then [] else [w[|w| - 1]])
  }

  /** `max` is at least 0 and at least every timing in the window, and it is 0 or one of them. */
  lemma {:induction false} MaxIsUpperBound(w: seq<Timing>)
    ensures Accumulate(w).max >= 0
    ensures forall i :: 0 <= i < |w| ==> w[i].timing <= Accumulate(w).max
    ensures Accumulate(w).max == 0 || exists i :: 0 <= i < |w| && w[i].timing == Accumulate(w).max
  {
    if |w| > 0 {
      var init := w[..|w| - 1];
      MaxIsUpperBound(init);
      assert forall i :: 0 <= i < |init| ==> init[i] == w[i];
    }
  }

  /** With non-negative timings (so that no timing equals the sentinel -1), `min` is the least
      timing of a non-empty window, and so at most `max`; it stays -1 for an empty window. */
  lemma {:induction false} MinIsLeast(w: seq<Timing>)
    requires forall i :: 0 <= i < |w| ==> w[i].timing >= 0
    ensures |w| == 0 ==> Accumulate(w).min == -1
    ensures |w| > 0 ==> forall i :: 0 <= i < |w| ==> Accumulate(w).min <= w[i].timing
    ensures |w| > 0 ==> exists i :: 0 <= i < |w| && w[i].timing == Accumulate(w).min
    ensures |w| > 0 ==> 0 <= Accumulate(w).min <= Accumulate(w).max
  {
    if |w| > 0 {
      var init := w[..|w| - 1];
      assert forall i :: 0 <= i < |init| ==> init[i] == w[i];
      MinIsLeast(init);
      MaxIsUpperBound(w);
      if |init| > 0 {
        var j :| 0 <= j < |init| && init[j].timing == Accumulate(init).min;
        assert w[j].timing == Accumulate(init).min;
      }
    }
  }

  /** A summary counts the window, never more than the method's total. */
  lemma SummaryCounts(s: seq<Timing>, history: int)
    ensures MakeSummary(SliceFrom(s, -history), |s|).count <= MakeSummary(SliceFrom(s, -history), |s|).totalCount
    ensures MakeSummary(SliceFrom(s, -history), |s|).numOk + MakeSummary(SliceFrom(s, -history), |s|).numNotOk
            == MakeSummary(SliceFrom(s, -history), |s|).count
  {
    TalliesAddUp(SliceFrom(s, -history));
  }

  /** The inner loop of `summariseFetchTimings` over one method's window. */
  method SummariseWindow(w: seq<Timing>, totalCount: nat) returns (s: Summary)
    ensures s == MakeSummary(w, totalCount)
  {
    var numOk, numNotOk, sum, max, min := 0, 0, 0, 0, -1;
    var statusesNotOk: seq<NotOkStatus> := [];
    var i := 0;
    while i < |w|
      invariant 0 <= i <= |w|
      invariant Acc(numOk, numNotOk, sum, max, min, statusesNotOk) == Accumulate(w[..i])
    {
      var item := w[i];
      if item.resOk {
        numOk := numOk + 1;
      } else {
        numNotOk := numNotOk + 1;
        statusesNotOk := statusesNotOk + [NotOkStatus(item.status, item.statusText)];
      }
      sum := sum + item.timing;
      max := Max(max, item.timing);
      min := if min == -1 then item.timing else Min(min, item.timing);
      assert w[..i + 1][..i] == w[..i];
      i := i + 1;
    }
    assert w[..i] == w;
    s := Summary(totalCount, |w|, sum, max, min, numOk, numNotOk, statusesNotOk);
  }

  /** JavaScript truthiness of the optional `history` argument (a number). */
  predicate Truthy(history: Option<int>) {
    history.Some? && history.value != 0
  }

  /** The window size `summariseFetchTimings` ends up using for every method: the given
      `history` when truthy, else the total of the first method, since the source assigns that
      total to `history` itself and so reuses it for every later method. */
  function WindowSize(methods: seq<string>, log: map<string, seq<Timing>>, history: Option<int>): int
    requires |methods| > 0 ==> methods[0] in log
  {
    if Truthy(history) then history.value
    else if |methods| == 0 then 0
    else |log[methods[0]]|
  }

  /** The summary `summariseFetchTimings` produces for a method with these timings under
      window size `size`. */
  function WindowSummary(timings: seq<Timing>, size: int): Summary {
    MakeSummary(SliceFrom(timings, -size), |timings|)
  }

  /** One pass of the outer loop of `summariseFetchTimings`: a falsy `history` is replaced by
      the method's total, and the method's window under that size is summarised. */
  method SummariseMethod(timings: seq<Timing>, history: Option<int>) returns (s: Summary, history': Option<int>)
    ensures history' == if Truthy(history) then history else Some(|timings|)
    ensures s == WindowSummary(timings, history'.value)
  {
    var totalCount := |timings|;
    history' := if Truthy(history) then history else Some(totalCount);
    var recentFew := SliceFrom(timings, -history'.value);
    s := SummariseWindow(recentFew, totalCount);
  }

  /** The summaries of the listed methods, each of its window under the same size `size`. */
  function Summaries(methods: seq<string>, log: map<string, seq<Timing>>, size: int): map<string, Summary>
    requires forall j :: 0 <= j < |methods| ==> methods[j] in log
  {
    MapThrough(methods, log, t => WindowSummary(t, size))
  }

  /** One summary per listed method, and each is that method's window summary. */
  lemma SummariesFacts(methods: seq<string>, log: map<string, seq<Timing>>, size: int)
    requires forall j :: 0 <= j < |methods| ==> methods[j] in log
    ensures Summaries(methods, log, size).Keys == set m | m in methods
    ensures forall m :: m in Summaries(methods, log, size) ==>
              m in log && Summaries(methods, log, size)[m] == WindowSummary(log[m], size)
  {
    MapThroughFacts(methods, log, t => WindowSummary(t, size));
  }

  /** The loop of `summariseFetchTimings` over the recorded methods, in their key order: one
      summary per method, of its window of recent timings. */
  method SummariseAll(methods: seq<string>, log: map<string, seq<Timing>>, history: Option<int>)
    returns (summary: map<string, Summary>)
    requires forall j :: 0 <= j < |methods| ==> methods[j] in log
    requires |methods| > 0 ==> |log[methods[0]]| > 0
    ensures summary == Summaries(methods, log, WindowSize(methods, log, history))
  {
    summary := map[];
    ghost var size := WindowSize(methods, log, history);
    var h: Option<int> := history;
    var i := 0;
    while i < |methods|
      invariant 0 <= i <= |methods|
      invariant i == 0 ==> h == history
      invariant i > 0 ==> h == Some(size) && Truthy(h)
      invariant summary == Summaries(methods[..i], log, size)
    {
      var s;
      s, h := SummariseMethod(log[methods[i]], h);
      assert h.value == size;
      assert methods[..i + 1][..i] == methods[..i];
      summary := summary[methods[i] := s];
      i := i + 1;
    }
    assert methods[..i] == methods;
  }

  class FetchTimingLog {
    /** The methods in the order they were first recorded. */
    var methods: seq<string>
    /** Every method's timings, oldest first. */
    var log: map<string, seq<Timing>>

    ghost predicate Valid()
      reads this
    {
      NoDuplicates(methods)
      && (forall m :: m in log <==> m in methods)
      && (forall m :: m in log ==> |log[m]| > 0)
    }

    constructor ()
      ensures Valid() && methods == [] && log == map[]
    {
      methods, log := [], map[];
    }

    /** `recordFetchTiming`: appends one timing to the method's list, creating the list on
        first use; nothing else changes. */
    method Record(verb: string, timing: int, resOk: bool, status: int, statusText: string)
      requires Valid()
      modifies this
      ensures Valid()
      ensures log == old(log)[verb := (if verb in old(log) then old(log)[verb] else []) + [Timing(timing, resOk, status, statusText)]]
      ensures methods == if verb in old(log) then old(methods) else old(methods) + [verb]
    {
      if verb !in log {
        methods := methods + [verb];
        log := log[verb := []];
      }
      log := log[verb := log[verb] + [Timing(timing, resOk, status, statusText)]];
    }

    /** The window size actually used: the given `history` when truthy, else the total of the
        first method, which the source then reuses for every later method. */
    ghost function EffectiveHistory(history: Option<int>): int
      reads this
      requires Valid()
    {
      WindowSize(methods, log, history)
    }

    /** `summariseFetchTimings` */
    method Summarise(history: Option<int>) returns (summary: map<string, Summary>)
      requires Valid()
      ensures summary.Keys == log.Keys
      ensures forall m :: m in summary ==> summary[m] == WindowSummary(log[m], EffectiveHistory(history))
    {
      summary := SummariseAll(methods, log, history);
      SummariesFacts(methods, log, EffectiveHistory(history));
    }
  }

  /** When no history is given, every method's window holds at most as many timings as the
      first method's total: the source reuses that first total for later methods. */
  lemma ReusedHistoryBoundsWindows(log: FetchTimingLog, m: string)
    requires log.Valid() && |log.methods| > 0 && m in log.log
    ensures |SliceFrom(log.log[m], -log.EffectiveHistory(None))| == Min(|log.log[m]|, |log.log[log.methods[0]]|)
  {
    RecentWindow(log.log[m], |log.log[log.methods[0]]|);
  }
}
