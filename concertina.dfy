/** The concertina merge of lib/searchAndContent.js (`concertinaSortedListAndUpdateUuidGroups`,
    `concertinaSortedLists`): a bubble-style pass over a list ranked by descending count that
    merges near-duplicate entries, those whose articles largely overlap, into one entry named
    after all its constituents, and records each merged entry's articles in the shared map
    from entry name to article uuids. */
module Concertina {
  import opened Common

  /** An entry of a ranked list: a facet key (or a merged name) and its count; merged entries
      also carry the names they were merged from. */
  datatype Ranked = Ranked(name: string, count: nat, constituentNames: Option<seq<string>>)

  /** The overlap threshold as an exact fraction `num / den`. */
  datatype Ratio = Ratio(num: nat, den: nat)

  const DefaultOverlapThreshold := Ratio(66, 100)
  const NameJoin := " + "

  // ---------------------------------------------------------------------------
  // The final sort: descending count, ties in their original order

  predicate SortedByCount(s: seq<Ranked>) {
    forall i, j :: 0 <= i < j < |s| ==> s[i].count >= s[j].count
  }

  /** Places `x` after every entry that the comparator does not put behind it. */
  function InsertByCount(s: seq<Ranked>, x: Ranked): seq<Ranked> {
    if |s| == 0 then [x]
    else if s[0].count < x.count then [x] + s
    else [s[0]] + InsertByCount(s[1..], x)
  }

  /** The descending-count `sort` with a stable sort, as insertion sort: ties keep their order. */
  function SortByCount(s: seq<Ranked>): seq<Ranked> {
    if |s| == 0 then [] else InsertByCount(SortByCount(s[..|s| - 1]), s[|s| - 1])
  }

  lemma {:induction false} InsertByCountSorted(s: seq<Ranked>, x: Ranked)
    requires SortedByCount(s)
    ensures SortedByCount(InsertByCount(s, x))
    ensures |InsertByCount(s, x)| == |s| + 1
    ensures InsertByCount(s, x)[0] == x || (|s| > 0 && InsertByCount(s, x)[0] == s[0])
  {
    if |s| > 0 && s[0].count >= x.count {
      InsertByCountSorted(s[1..], x);
      var r := InsertByCount(s[1..], x);
      forall j | 0 <= j < |r| ensures s[0].count >= r[j].count {
        assert r[0].count >= r[j].count;
        if |s| > 1 && r[0] != x { assert r[0] == s[1..][0]; }
      }
      assert InsertByCount(s, x) == [s[0]] + r;
    }
  }

  lemma {:induction false} InsertByCountPermutes(s: seq<Ranked>, x: Ranked)
    ensures multiset(InsertByCount(s, x)) == multiset(s) + multiset{x}
  {
    if |s| > 0 && s[0].count >= x.count {
      InsertByCountPermutes(s[1..], x);
      assert s == [s[0]] + s[1..];
    }
  }

  /** The sort puts the entries in descending order of count ... */
  lemma {:induction false} SortByCountSorted(s: seq<Ranked>)
    ensures SortedByCount(SortByCount(s))
    ensures |SortByCount(s)| == |s|
  {
    if |s| > 0 {
      SortByCountSorted(s[..|s| - 1]);
      InsertByCountSorted(SortByCount(s[..|s| - 1]), s[|s| - 1]);
    }
  }

  /** ... and neither adds nor loses any. */
  lemma {:induction false} SortByCountPermutes(s: seq<Ranked>)
    ensures multiset(SortByCount(s)) == multiset(s)
  {
    if |s| > 0 {
      SortByCountPermutes(s[..|s| - 1]);
      InsertByCountPermutes(SortByCount(s[..|s| - 1]), s[|s| - 1]);
      assert s == s[..|s| - 1] + [s[|s| - 1]];
      assert multiset(s) == multiset(s[..|s| - 1]) + multiset{s[|s| - 1]};
    }
  }

  // ---------------------------------------------------------------------------
  // One bubble meeting one candidate

  /** The names an entry stands for: its constituents if merged, else its own name. */
  function Constituents(r: Ranked): seq<string> {
    r.constituentNames.GetOr([r.name])
  }

  /** `bubbleUuids.filter(uuid => candidateUuids.includes(uuid)).length` */
  function Overlap(bubbleUuids: seq<string>, candidateUuids: seq<string>): (n: nat)
    ensures n <= |bubbleUuids|
  {
    if |bubbleUuids| == 0 then 0
    else Overlap(bubbleUuids[..|bubbleUuids| - 1], candidateUuids)
         + (if bubbleUuids[|bubbleUuids| - 1] in candidateUuids then 1 else 0)
  }

  /** Every entry's name has its uuids in the map. */
  predicate AllNamed(s: seq<Ranked>, uuids: map<string, seq<string>>) {
    forall i :: 0 <= i < |s| ==> s[i].name in uuids
  }

  /** The bubble and the candidate overlap enough: `overlap >= bubble.count * threshold`. */
  predicate Overlaps(bubble: Ranked, candidate: Ranked, uuids: map<string, seq<string>>, threshold: Ratio)
    requires bubble.name in uuids && candidate.name in uuids
  {
    Overlap(uuids[bubble.name], uuids[candidate.name]) * threshold.den >= bubble.count * threshold.num
  }

  /** The candidate the bubble merges with: the first match met scanning from index `i`
      toward the front of `s`. */
  function FindFrom(s: seq<Ranked>, bubble: Ranked, uuids: map<string, seq<string>>, threshold: Ratio, i: int): (r: Option<nat>)
    requires -1 <= i < |s| && AllNamed(s, uuids) && bubble.name in uuids
    ensures r.Some? ==> r.value <= i
    decreases i + 1
  {
    if i < 0 then None
    else if Overlaps(bubble, s[i], uuids, threshold) then Some(i)
    else FindFrom(s, bubble, uuids, threshold, i - 1)
  }

  /** The match found is the nearest match at or before `i`; when there is none, nothing at
      or before `i` matches. */
  lemma {:induction false} FindFromIsNearest(s: seq<Ranked>, bubble: Ranked, uuids: map<string, seq<string>>, threshold: Ratio, i: int)
    requires -1 <= i < |s| && AllNamed(s, uuids) && bubble.name in uuids
    ensures FindFrom(s, bubble, uuids, threshold, i).None? ==>
              forall k :: 0 <= k <= i ==> !Overlaps(bubble, s[k], uuids, threshold)
    ensures FindFrom(s, bubble, uuids, threshold, i).Some? ==>
              var k := FindFrom(s, bubble, uuids, threshold, i).value;
              k <= i && Overlaps(bubble, s[k], uuids, threshold)
              && forall k' :: k < k' <= i ==> !Overlaps(bubble, s[k'], uuids, threshold)
    decreases i + 1
  {
    if i >= 0 && !Overlaps(bubble, s[i], uuids, threshold) {
      FindFromIsNearest(s, bubble, uuids, threshold, i - 1);
    }
  }

  /** The merged entry and its uuids: the duplicate-free union of the candidate's and the
      bubble's uuids (candidate's first), counted; the duplicate-free union of their
      constituent names, joined by " + ". */
  function Merge(candidate: Ranked, bubble: Ranked, uuids: map<string, seq<string>>): (Ranked, seq<string>)
    requires candidate.name in uuids && bubble.name in uuids
  {
    var mergedUuids := Dedupe(uuids[candidate.name] + uuids[bubble.name]);
    var names := Dedupe(Constituents(candidate) + Constituents(bubble));
    (Ranked(Join(names, NameJoin), |mergedUuids|, Some(names)), mergedUuids)
  }

  lemma MergeFacts(candidate: Ranked, bubble: Ranked, uuids: map<string, seq<string>>)
    requires candidate.name in uuids && bubble.name in uuids
    ensures var (m, mu) := Merge(candidate, bubble, uuids);
            && NoDuplicates(mu)
            && (set u | u in mu) == (set u | u in uuids[candidate.name]) + (set u | u in uuids[bubble.name])
            && m.count == |mu|
            && m.constituentNames.Some?
            && NoDuplicates(m.constituentNames.value)
            && (set n | n in m.constituentNames.value) == (set n | n in Constituents(candidate)) + (set n | n in Constituents(bubble))
            && m.name == Join(m.constituentNames.value, NameJoin)
  {
    var cu, bu := uuids[candidate.name], uuids[bubble.name];
    DedupeFacts(cu + bu);
    assert (set u | u in cu + bu) == (set u | u in cu) + (set u | u in bu);
    var cn, bn := Constituents(candidate), Constituents(bubble);
    DedupeFacts(cn + bn);
    assert (set n | n in cn + bn) == (set n | n in cn) + (set n | n in bn);
  }

  /** With duplicate-free constituents, the candidate's names come first, unchanged. */
  lemma MergeKeepsCandidateNamesFirst(candidate: Ranked, bubble: Ranked, uuids: map<string, seq<string>>)
    requires candidate.name in uuids && bubble.name in uuids
    requires NoDuplicates(Constituents(candidate))
    ensures var names := Merge(candidate, bubble, uuids).0.constituentNames.value;
            |Constituents(candidate)| <= |names| && names[..|Constituents(candidate)|] == Constituents(candidate)
  {
    DedupeConcat(Constituents(candidate), Constituents(bubble));
    DedupeOfDistinct(Constituents(candidate));
  }

  /** Where the insertion scan, starting at `j` and walking toward the front past every
      entry with a smaller count, stops: one past the entry it stopped at. */
  function InsertIndex(s: seq<Ranked>, j: int, count: nat): (r: nat)
    requires -1 <= j < |s|
    ensures r <= j + 1
    decreases j + 1
  {
    if j >= 0 && s[j].count < count then InsertIndex(s, j - 1, count) else j + 1
  }

  /** The merged entry goes to the nearest position at or before `j + 1` whose predecessor's
      count is not less than its own (or to the front): every entry it passed has a smaller
      count. */
  lemma {:induction false} InsertIndexFacts(s: seq<Ranked>, j: int, count: nat)
    requires -1 <= j < |s|
    ensures InsertIndex(s, j, count) <= j + 1
    ensures forall k :: InsertIndex(s, j, count) <= k <= j ==> s[k].count < count
    ensures InsertIndex(s, j, count) == 0 || s[InsertIndex(s, j, count) - 1].count >= count
    decreases j + 1
  {
    if j >= 0 && s[j].count < count {
      InsertIndexFacts(s, j - 1, count);
    }
  }

  // ---------------------------------------------------------------------------
  // The outer loop

  /** The loop's state: the working list, the entries already output, the uuid map, and the
      names of the merged entries made so far. */
  datatype State = State(source: seq<Ranked>, concertinaed: seq<Ranked>, uuids: map<string, seq<string>>, merged: seq<string>)

  /** The merge of the bubble into the candidate at index `i` of the working list `rest`:
      the candidate is spliced out, the merged entry spliced in where the insertion scan
      stops, and its uuids recorded under its name. */
  function MergeInto(rest: seq<Ranked>, i: nat, bubble: Ranked, concertinaed: seq<Ranked>,
                     uuids: map<string, seq<string>>, merged: seq<string>): (r: State)
    requires i < |rest| && AllNamed(rest, uuids) && bubble.name in uuids
    ensures AllNamed(r.source, r.uuids)
    ensures |r.source| == |rest|
  {
    var (m, mu) := Merge(rest[i], bubble, uuids);
    var without := rest[..i] + rest[i + 1..];
    var p := InsertIndex(without, i - 1, m.count);
    var source' := without[..p] + [m] + without[p..];
    var uuids' := uuids[m.name := mu];
    assert AllNamed(source', uuids') by {
      forall k | 0 <= k < |source'| ensures source'[k].name in uuids' {
        if k < p { assert source'[k] == without[k]; }
        else if k > p { assert source'[k] == without[k - 1]; }
      }
    }
    State(source', concertinaed, uuids', merged + [m.name])
  }

  /** One pass of the `while`: pop the bubble; scan for a candidate from the end; either
      output the bubble, or merge it into the candidate. */
  function Step(st: State, threshold: Ratio): (r: State)
    requires |st.source| > 1 && AllNamed(st.source, st.uuids)
    ensures AllNamed(r.source, r.uuids)
  {
    var n := |st.source| - 1;
    var bubble := st.source[n];
    var rest := st.source[..n];
    match FindFrom(rest, bubble, st.uuids, threshold, n - 1)
    case None => State(rest, st.concertinaed + [bubble], st.uuids, st.merged)
    case Some(i) => MergeInto(rest, i, bubble, st.concertinaed, st.uuids, st.merged)
  }

  /** The `while (sourceList.length > 1)` loop. */
  function Run(st: State, threshold: Ratio): (r: State)
    requires AllNamed(st.source, st.uuids)
    ensures AllNamed(r.source, r.uuids)
    decreases |st.source|
  {
    if |st.source| > 1 then
      StepShortens(st, threshold);
      Run(Step(st, threshold), threshold)
    else st
  }

  /** Each pass shortens the working list by exactly one, and either outputs one entry or
      records one merge. */
  lemma StepShortens(st: State, threshold: Ratio)
    requires |st.source| > 1 && AllNamed(st.source, st.uuids)
    ensures |Step(st, threshold).source| == |st.source| - 1
    ensures |Step(st, threshold).concertinaed| + |Step(st, threshold).merged| == |st.concertinaed| + |st.merged| + 1
  {
  }

  /** The loop leaves at most one entry in the working list, and the entries output plus the
      merges made plus the entry left make up the entries it started with. */
  lemma {:induction false} RunAccounting(st: State, threshold: Ratio)
    requires AllNamed(st.source, st.uuids)
    ensures |Run(st, threshold).source| == if |st.source| == 0 then 0 else 1
    ensures |Run(st, threshold).concertinaed| + |Run(st, threshold).merged| + |Run(st, threshold).source|
            == |st.concertinaed| + |st.merged| + |st.source|
    decreases |st.source|
  {
    if |st.source| > 1 {
      StepShortens(st, threshold);
      RunAccounting(Step(st, threshold), threshold);
    }
  }

  /** The uuid map only gains or overwrites the keys of merged entries, and the loop never
      removes an output entry or forgets a merge. */
  lemma {:induction false} RunTouchesOnlyMergedKeys(st: State, threshold: Ratio)
    requires AllNamed(st.source, st.uuids)
    ensures forall k :: k in st.uuids ==> k in Run(st, threshold).uuids
    ensures forall k :: k in Run(st, threshold).uuids && (k !in st.uuids || Run(st, threshold).uuids[k] != st.uuids[k])
                        ==> k in Run(st, threshold).merged
    ensures |st.merged| <= |Run(st, threshold).merged| && Run(st, threshold).merged[..|st.merged|] == st.merged
    ensures |st.concertinaed| <= |Run(st, threshold).concertinaed|
            && Run(st, threshold).concertinaed[..|st.concertinaed|] == st.concertinaed
    decreases |st.source|
  {
    if |st.source| > 1 {
      var next := Step(st, threshold);
      StepShortens(st, threshold);
      RunTouchesOnlyMergedKeys(next, threshold);
      var r := Run(st, threshold);
      assert r == Run(next, threshold);
      assert |st.merged| <= |next.merged| && next.merged[..|st.merged|] == st.merged;
      assert |st.concertinaed| <= |next.concertinaed| && next.concertinaed[..|st.concertinaed|] == st.concertinaed;
      assert r.merged[..|st.merged|] == r.merged[..|next.merged|][..|st.merged|];
      assert r.concertinaed[..|st.concertinaed|] == r.concertinaed[..|next.concertinaed|][..|st.concertinaed|];
      forall k | k in r.uuids && (k !in st.uuids || r.uuids[k] != st.uuids[k]) ensures k in r.merged {
        if k in next.uuids && (k !in st.uuids || next.uuids[k] != st.uuids[k]) {
          assert k == next.merged[|next.merged| - 1];
          assert k in r.merged[..|next.merged|];
        }
      }
    }
  }

  // ---------------------------------------------------------------------------
  // The whole operation

  /** `concertinaSortedListAndUpdateUuidGroups`: the concertinaed list, sorted, and the
      updated uuid map. An empty list yields the single entry `undefined` (`None`). */
  function Concertinaed(sortedList: seq<Ranked>, uuids: map<string, seq<string>>, threshold: Ratio)
    : (seq<Option<Ranked>>, map<string, seq<string>>)
    requires AllNamed(sortedList, uuids)
  {
    var r := Run(State(sortedList, [], uuids, []), threshold);
    if |r.source| == 0 then ([None], r.uuids)
    else
      var sorted := SortByCount(r.concertinaed + [r.source[|r.source| - 1]]);
      (seq(|sorted|, i requires 0 <= i < |sorted| => Some(sorted[i])), r.uuids)
  }

  /** An empty list yields `[undefined]` and leaves the map alone. */
  lemma ConcertinaedOfEmpty(uuids: map<string, seq<string>>, threshold: Ratio)
    ensures Concertinaed([], uuids, threshold) == ([None], uuids)
  {
  }

  /** Otherwise every entry is defined, the list is sorted by descending count, and its
      length plus the number of merges is the input's length. */
  lemma ConcertinaedShape(sortedList: seq<Ranked>, uuids: map<string, seq<string>>, threshold: Ratio)
    requires AllNamed(sortedList, uuids) && |sortedList| > 0
    ensures var out := Concertinaed(sortedList, uuids, threshold).0;
            && (forall i :: 0 <= i < |out| ==> out[i].Some?)
            && (forall i, j :: 0 <= i < j < |out| ==> out[i].value.count >= out[j].value.count)
            && |out| + |Run(State(sortedList, [], uuids, []), threshold).merged| == |sortedList|
  {
    var r := Run(State(sortedList, [], uuids, []), threshold);
    RunAccounting(State(sortedList, [], uuids, []), threshold);
    SortByCountSorted(r.concertinaed + [r.source[|r.source| - 1]]);
  }

  /** The map after the operation keeps every key it had, and any key it gained or whose
      uuids changed is the name of a merged entry. */
  lemma ConcertinaedUuidMap(sortedList: seq<Ranked>, uuids: map<string, seq<string>>, threshold: Ratio)
    requires AllNamed(sortedList, uuids)
    ensures var u := Concertinaed(sortedList, uuids, threshold).1;
            && (forall k :: k in uuids ==> k in u)
            && (forall k :: k in u && (k !in uuids || u[k] != uuids[k]) ==> k in Run(State(sortedList, [], uuids, []), threshold).merged)
  {
    RunTouchesOnlyMergedKeys(State(sortedList, [], uuids, []), threshold);
  }

  /** The scan for a candidate: from the end of the working list toward its front, stopping
      at the first candidate that overlaps enough. */
  method FindCandidate(source: seq<Ranked>, bubble: Ranked, uuids: map<string, seq<string>>, threshold: Ratio)
    returns (found: Option<nat>)
    requires AllNamed(source, uuids) && bubble.name in uuids
    ensures found == FindFrom(source, bubble, uuids, threshold, |source| - 1)
  {
    var bubbleUuids := uuids[bubble.name];
    var i := |source| - 1;
    while i >= 0
      invariant -1 <= i < |source|
      invariant FindFrom(source, bubble, uuids, threshold, |source| - 1) == FindFrom(source, bubble, uuids, threshold, i)
      decreases i + 1
    {
      var candidateUuids := uuids[source[i].name];
      var overlapCount := Overlap(bubbleUuids, candidateUuids);
      if overlapCount * threshold.den >= bubble.count * threshold.num {
        return Some(i);
      }
      i := i - 1;
    }
    return None;
  }

  /** The merge branch of the scan: build the merged entry, splice the candidate out and the
      merged entry in, and record the merged entry's uuids. */
  method MergeBubble(rest: seq<Ranked>, i: nat, bubble: Ranked, uuids: map<string, seq<string>>)
    returns (source': seq<Ranked>, uuids': map<string, seq<string>>, mergedName: string)
    requires i < |rest| && AllNamed(rest, uuids) && bubble.name in uuids
    ensures var r := MergeInto(rest, i, bubble, [], uuids, []);
            source' == r.source && uuids' == r.uuids && [mergedName] == r.merged
  {
    var (mergedItem, mergedUuids) := Merge(rest[i], bubble, uuids);
    mergedName := mergedItem.name;
    source' := rest[..i] + rest[i + 1..];
    var insertAt := InsertionPoint(source', i - 1, mergedItem.count);
    source' := source'[..insertAt] + [mergedItem] + source'[insertAt..];
    uuids' := uuids[mergedName := mergedUuids];
  }

  /** The insertion scan: from `j` toward the front while the entry's count is smaller. */
  method InsertionPoint(s: seq<Ranked>, j: int, count: nat) returns (p: nat)
    requires -1 <= j < |s|
    ensures p == InsertIndex(s, j, count)
  {
    var insertJ := j;
    while insertJ >= 0 && s[insertJ].count < count
      invariant -1 <= insertJ < |s|
      invariant InsertIndex(s, j, count) == InsertIndex(s, insertJ, count)
      decreases insertJ + 1
    {
      insertJ := insertJ - 1;
    }
    p := insertJ + 1;
  }

  /** One pass of the `while` loop, on the working list, the output and the map. */
  method ConcertinaStep(source: seq<Ranked>, concertinaed: seq<Ranked>, uuids: map<string, seq<string>>,
                        ghost merged: seq<string>, threshold: Ratio)
    returns (source': seq<Ranked>, concertinaed': seq<Ranked>, uuids': map<string, seq<string>>, ghost merged': seq<string>)
    requires |source| > 1 && AllNamed(source, uuids)
    ensures State(source', concertinaed', uuids', merged') == Step(State(source, concertinaed, uuids, merged), threshold)
  {
    var n := |source| - 1;
    var bubble := source[n];
    var rest := source[..n];
    var found := FindCandidate(rest, bubble, uuids, threshold);
    if found.None? {
      source', concertinaed', uuids', merged' := rest, concertinaed + [bubble], uuids, merged;
    } else {
      var mergedName;
      source', uuids', mergedName := MergeBubble(rest, found.value, bubble, uuids);
      concertinaed', merged' := concertinaed, merged + [mergedName];
    }
  }

  /** `concertinaSortedListAndUpdateUuidGroups(sortedList, uuidsGroupedByItem, params)`, with
      the map passed in and the updated map passed back. The caller's list is a value here, so
      the working copy the source makes is implicit. */
  method ConcertinaSortedList(sortedList: seq<Ranked>, uuids: map<string, seq<string>>, threshold: Ratio)
    returns (out: seq<Option<Ranked>>, uuids': map<string, seq<string>>)
    requires AllNamed(sortedList, uuids)
    ensures (out, uuids') == Concertinaed(sortedList, uuids, threshold)
  {
    var sourceList := sortedList;
    var concertinaedList: seq<Ranked> := [];
    uuids' := uuids;
    ghost var merged: seq<string> := [];
    while |sourceList| > 1
      invariant AllNamed(sourceList, uuids')
      invariant Run(State(sourceList, concertinaedList, uuids', merged), threshold)
             == Run(State(sortedList, [], uuids, []), threshold)
      decreases |sourceList|
    {
      StepShortens(State(sourceList, concertinaedList, uuids', merged), threshold);
      sourceList, concertinaedList, uuids', merged := ConcertinaStep(sourceList, concertinaedList, uuids', merged, threshold);
    }
    if |sourceList| == 0 {
      out := [None];
    } else {
      var sorted := SortByCount(concertinaedList + [sourceList[|sourceList| - 1]]);
      out := seq(|sorted|, i requires 0 <= i < |sorted| => Some(sorted[i]));
    }
  }

  // ---------------------------------------------------------------------------
  // `concertinaSortedLists`: the overall ranking, then each taxonomy's ranking, all against
  // one uuid map that every run extends

  /** What a run of the operation promises about the list it returns. */
  predicate WellRanked(out: seq<Option<Ranked>>, input: seq<Ranked>) {
    if |input| == 0 then out == [None]
    else
      && 1 <= |out| <= |input|
      && (forall i :: 0 <= i < |out| ==> out[i].Some?)
      && (forall i, j :: 0 <= i < j < |out| ==> out[i].value.count >= out[j].value.count)
  }

  lemma ConcertinaedWellRanked(sortedList: seq<Ranked>, uuids: map<string, seq<string>>, threshold: Ratio)
    requires AllNamed(sortedList, uuids)
    ensures WellRanked(Concertinaed(sortedList, uuids, threshold).0, sortedList)
    ensures forall k :: k in uuids ==> k in Concertinaed(sortedList, uuids, threshold).1
  {
    ConcertinaedUuidMap(sortedList, uuids, threshold);
    if |sortedList| > 0 {
      ConcertinaedShape(sortedList, uuids, threshold);
    }
  }

  /** Every list of `grouped` named by `taxonomies` uses only names of the map. */
  predicate GroupsNamed(taxonomies: seq<string>, grouped: map<string, seq<Ranked>>, uuids: map<string, seq<string>>) {
    forall j :: 0 <= j < |taxonomies| ==> taxonomies[j] in grouped && AllNamed(grouped[taxonomies[j]], uuids)
  }

  lemma GroupsNamedGrow(taxonomies: seq<string>, grouped: map<string, seq<Ranked>>,
                        uuids: map<string, seq<string>>, uuids': map<string, seq<string>>)
    requires GroupsNamed(taxonomies, grouped, uuids)
    requires forall k :: k in uuids ==> k in uuids'
    ensures GroupsNamed(taxonomies, grouped, uuids')
  {
    forall j | 0 <= j < |taxonomies| ensures AllNamed(grouped[taxonomies[j]], uuids') {
      var s := grouped[taxonomies[j]];
      assert forall i :: 0 <= i < |s| ==> s[i].name in uuids;
    }
  }

  /** The `taxonomies.forEach`, threading the uuid map from one taxonomy to the next. */
  function ConcertinaTaxonomies(taxonomies: seq<string>, grouped: map<string, seq<Ranked>>,
                                uuids: map<string, seq<string>>, threshold: Ratio)
    : (r: (map<string, seq<Option<Ranked>>>, map<string, seq<string>>))
    requires GroupsNamed(taxonomies, grouped, uuids)
    ensures forall k :: k in uuids ==> k in r.1
    decreases |taxonomies|
  {
    if |taxonomies| == 0 then (map[], uuids)
    else
      var init := taxonomies[..|taxonomies| - 1];
      var t := taxonomies[|taxonomies| - 1];
      assert GroupsNamed(init, grouped, uuids);
      var (lists, u) := ConcertinaTaxonomies(init, grouped, uuids, threshold);
      GroupsNamedGrow(taxonomies, grouped, uuids, u);
      ConcertinaedWellRanked(grouped[t], u, threshold);
      var (out, u') := Concertinaed(grouped[t], u, threshold);
      (lists[t := out], u')
  }

  /** One more taxonomy extends the threaded result by one run of the operation. */
  lemma ConcertinaTaxonomiesSnoc(taxonomies: seq<string>, t: string, grouped: map<string, seq<Ranked>>,
                                 uuids: map<string, seq<string>>, threshold: Ratio)
    requires GroupsNamed(taxonomies + [t], grouped, uuids)
    ensures GroupsNamed(taxonomies, grouped, uuids)
    ensures var (lists, u) := ConcertinaTaxonomies(taxonomies, grouped, uuids, threshold);
            t in grouped && AllNamed(grouped[t], u)
            && ConcertinaTaxonomies(taxonomies + [t], grouped, uuids, threshold)
               == var (out, u') := Concertinaed(grouped[t], u, threshold); (lists[t := out], u')
  {
    assert (taxonomies + [t])[..|taxonomies|] == taxonomies;
    assert forall j :: 0 <= j < |taxonomies| ==> taxonomies[j] == (taxonomies + [t])[j];
    var (lists, u) := ConcertinaTaxonomies(taxonomies, grouped, uuids, threshold);
    GroupsNamedGrow(taxonomies + [t], grouped, uuids, u);
    assert (taxonomies + [t])[|taxonomies|] == t;
  }

  /** The lists `concertinaSortedLists` returns. */
  datatype ConcertinaedLists = ConcertinaedLists(
    sortedByCount: seq<Option<Ranked>>,
    sortedByCountGroupedByTaxonomy: map<string, seq<Option<Ranked>>>)

  /** `concertinaSortedLists`: first the overall ranking, then every taxonomy's, in order. */
  function ConcertinaLists(sortedByCount: seq<Ranked>, taxonomies: seq<string>, grouped: map<string, seq<Ranked>>,
                           uuids: map<string, seq<string>>, threshold: Ratio)
    : (r: (ConcertinaedLists, map<string, seq<string>>))
    requires AllNamed(sortedByCount, uuids) && GroupsNamed(taxonomies, grouped, uuids)
    ensures forall k :: k in uuids ==> k in r.1
  {
    ConcertinaedWellRanked(sortedByCount, uuids, threshold);
    var (overall, u) := Concertinaed(sortedByCount, uuids, threshold);
    GroupsNamedGrow(taxonomies, grouped, uuids, u);
    var (byTaxonomy, u') := ConcertinaTaxonomies(taxonomies, grouped, u, threshold);
    (ConcertinaedLists(overall, byTaxonomy), u')
  }

  /** Every taxonomy gets a list. */
  lemma {:induction false} ConcertinaTaxonomiesKeys(taxonomies: seq<string>, grouped: map<string, seq<Ranked>>,
                                                    uuids: map<string, seq<string>>, threshold: Ratio)
    requires GroupsNamed(taxonomies, grouped, uuids)
    ensures ConcertinaTaxonomies(taxonomies, grouped, uuids, threshold).0.Keys == (set t | t in taxonomies)
    decreases |taxonomies|
  {
    if |taxonomies| > 0 {
      var init, t := taxonomies[..|taxonomies| - 1], taxonomies[|taxonomies| - 1];
      assert taxonomies == init + [t];
      ConcertinaTaxonomiesSnoc(init, t, grouped, uuids, threshold);
      ConcertinaTaxonomiesKeys(init, grouped, uuids, threshold);
      assert (set x | x in taxonomies) == (set x | x in init) + {t};
    }
  }

  /** Every list keeps the promises of a single run. */
  lemma {:induction false} ConcertinaTaxonomiesRanked(taxonomies: seq<string>, grouped: map<string, seq<Ranked>>,
                                                      uuids: map<string, seq<string>>, threshold: Ratio)
    requires GroupsNamed(taxonomies, grouped, uuids)
    ensures var lists := ConcertinaTaxonomies(taxonomies, grouped, uuids, threshold).0;
            forall t :: t in lists ==> t in grouped && WellRanked(lists[t], grouped[t])
    decreases |taxonomies|
  {
    if |taxonomies| > 0 {
      var init, t := taxonomies[..|taxonomies| - 1], taxonomies[|taxonomies| - 1];
      assert taxonomies == init + [t];
      ConcertinaTaxonomiesSnoc(init, t, grouped, uuids, threshold);
      ConcertinaTaxonomiesRanked(init, grouped, uuids, threshold);
      var (lists, u) := ConcertinaTaxonomies(init, grouped, uuids, threshold);
      ConcertinaedWellRanked(grouped[t], u, threshold);
    }
  }

  lemma ConcertinaListsFacts(sortedByCount: seq<Ranked>, taxonomies: seq<string>, grouped: map<string, seq<Ranked>>,
                             uuids: map<string, seq<string>>, threshold: Ratio)
    requires AllNamed(sortedByCount, uuids) && GroupsNamed(taxonomies, grouped, uuids)
    ensures var lists := ConcertinaLists(sortedByCount, taxonomies, grouped, uuids, threshold).0;
            && WellRanked(lists.sortedByCount, sortedByCount)
            && lists.sortedByCountGroupedByTaxonomy.Keys == (set t | t in taxonomies)
            && forall t :: t in lists.sortedByCountGroupedByTaxonomy
                 ==> WellRanked(lists.sortedByCountGroupedByTaxonomy[t], grouped[t])
  {
    ConcertinaedWellRanked(sortedByCount, uuids, threshold);
    var (overall, u) := Concertinaed(sortedByCount, uuids, threshold);
    GroupsNamedGrow(taxonomies, grouped, uuids, u);
    ConcertinaTaxonomiesKeys(taxonomies, grouped, u, threshold);
    ConcertinaTaxonomiesRanked(taxonomies, grouped, u, threshold);
  }

  /** `concertinaSortedLists(correlations, params)`: returns the lists and the uuid map as the
      shared `uuidsGroupedByItem` is left afterwards. */
  method ConcertinaSortedLists(sortedByCount: seq<Ranked>, taxonomies: seq<string>, grouped: map<string, seq<Ranked>>,
                               uuids: map<string, seq<string>>, threshold: Ratio)
    returns (lists: ConcertinaedLists, uuids': map<string, seq<string>>)
    requires AllNamed(sortedByCount, uuids) && GroupsNamed(taxonomies, grouped, uuids)
    ensures (lists, uuids') == ConcertinaLists(sortedByCount, taxonomies, grouped, uuids, threshold)
  {
    var overall;
    overall, uuids' := ConcertinaSortedList(sortedByCount, uuids, threshold);
    ConcertinaedWellRanked(sortedByCount, uuids, threshold);
    GroupsNamedGrow(taxonomies, grouped, uuids, uuids');
    ghost var start := uuids';
    var byTaxonomy: map<string, seq<Option<Ranked>>> := map[];
    for k := 0 to |taxonomies|
      invariant GroupsNamed(taxonomies, grouped, uuids')
      invariant (byTaxonomy, uuids') == ConcertinaTaxonomies(taxonomies[..k], grouped, start, threshold)
    {
      assert taxonomies[..k + 1][..k] == taxonomies[..k];
      var t := taxonomies[k];
      var out;
      ghost var before := uuids';
      out, uuids' := ConcertinaSortedList(grouped[t], uuids', threshold);
      ConcertinaedWellRanked(grouped[t], before, threshold);
      GroupsNamedGrow(taxonomies, grouped, before, uuids');
      ConcertinaTaxonomiesSnoc(taxonomies[..k], t, grouped, start, threshold);
      assert taxonomies[..k + 1] == taxonomies[..k] + [t];
      byTaxonomy := byTaxonomy[t := out];
    }
    assert taxonomies[..|taxonomies|] == taxonomies;
    lists := ConcertinaedLists(overall, byTaxonomy);
  }
}
