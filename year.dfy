/** The year-over-year topic comparison of routes/year.js: the one-year search query, the
    grouping of a search response's facets by taxonomy, the merge of two years' facet counts
    into one entry per topic, the classification of those entries into five categories of
    change, and the display view of the classification. */
module YearTopics {
  import opened Common

  // ---------------------------------------------------------------------------
  // `constructQueryParamsForYearTopicCounts`

  /** The query parameters of a one-year topic summary. */
  datatype YearQueryParams = YearQueryParams(queryString: string, maxResults: int, includeCapi: bool)

  const DefaultYear := 2018
  const LowerPrefix := "lastPublishDateTime:>"
  const UpperPrefix := "lastPublishDateTime:<"
  const MonthDay := "-01-01"
  const Midnight := "T00:00:00Z"

  /** The first instant of a year, `${year}-01-01T00:00:00Z`. */
  function NewYear(year: int): string {
    IntToString(year) + MonthDay + Midnight
  }

  /** `lastPublishDateTime:>${year}-01-01T00:00:00Z` */
  function LowerBound(year: int): string {
    LowerPrefix + NewYear(year)
  }

  /** `lastPublishDateTime:<${year+1}-01-01T00:00:00Z` */
  function UpperBound(year: int): string {
    UpperPrefix + NewYear(year + 1)
  }

  /** `constructQueryParamsForYearTopicCounts(year)`: a single result with no content, over
      the articles published after the start of the year and before the start of the next. */
  function ConstructQueryParamsForYearTopicCounts(year: Option<int>): (r: YearQueryParams)
    ensures var y := year.GetOr(DefaultYear);
            r.queryString == LowerBound(y) + " and " + UpperBound(y)
    ensures r.maxResults == 1 && !r.includeCapi
  {
    var y := year.GetOr(DefaultYear);
    JoinTwo(LowerBound(y), UpperBound(y), " and ");
    YearQueryParams(Join([LowerBound(y), UpperBound(y)], " and "), 1, false)
  }

  /** Reads the year back out of a one-year query: the text after the lower-bound prefix up to
      the first 'T', less the month and day. */
  function QueryYear(queryString: string): Option<int> {
    if !StartsWith(queryString, LowerPrefix) then None
    else
      var date := BeforeFirst(queryString[|LowerPrefix|..], 'T');
      if EndsWith(date, MonthDay) then ParseInt(date[..|date| - |MonthDay|]) else None
  }

  /** The text before the first `c` is the part before a `c` that does not occur earlier. */
  lemma BeforeFirstOf(a: string, c: char, b: string)
    requires c !in a
    ensures BeforeFirst(a + [c] + b, c) == a
  {
    var s := a + [c] + b;
    var r := BeforeFirst(s, c);
    assert s[|a|] == c;
    assert r == s[..|r|] == a;
  }

  /** A lower bound reads back as its year, whatever follows it. */
  lemma QueryYearOf(year: int, rest: string)
    ensures QueryYear(LowerBound(year) + rest) == Some(year)
  {
    var digits := IntToString(year);
    var date := digits + MonthDay;
    var after := Midnight[1..] + rest;
    assert LowerBound(year) + rest == LowerPrefix + date + ['T'] + after by {
      assert Midnight == ['T'] + Midnight[1..];
    }
    var q := LowerPrefix + date + ['T'] + after;
    assert 'T' !in digits by {
      if year < 0 {
        assert digits == "-" + NatToString(-year);
      }
    }
    assert 'T' !in date;
    assert StartsWith(q, LowerPrefix) by {
      assert q[..|LowerPrefix|] == LowerPrefix;
    }
    assert q[|LowerPrefix|..] == date + ['T'] + after;
    BeforeFirstOf(date, 'T', after);
    assert EndsWith(date, MonthDay) by {
      assert date[|date| - |MonthDay|..] == MonthDay;
    }
    assert date[..|date| - |MonthDay|] == digits;
    IntToStringRoundTrip(year);
  }

  /** The year a query is built for is the year it reads back as, so different years give
      different queries. */
  lemma YearQueryRoundTrip(year: int)
    ensures QueryYear(ConstructQueryParamsForYearTopicCounts(Some(year)).queryString) == Some(year)
  {
    var rest := " and " + UpperBound(year);
    assert ConstructQueryParamsForYearTopicCounts(Some(year)).queryString == LowerBound(year) + rest;
    QueryYearOf(year, rest);
  }

  /** Consecutive years' ranges meet: a year's range ends at the instant the next year's
      range starts from. */
  lemma YearQueriesAbut(year: int)
    ensures UpperBound(year)[|UpperPrefix|..] == NewYear(year + 1) == LowerBound(year + 1)[|LowerPrefix|..]
  {
    assert (UpperPrefix + NewYear(year + 1))[|UpperPrefix|..] == NewYear(year + 1);
    assert (LowerPrefix + NewYear(year + 1))[|LowerPrefix|..] == NewYear(year + 1);
  }

  // ---------------------------------------------------------------------------
  // The facet grouping of `fetchSapiTopicSummary`

  datatype FacetElement = FacetElement(name: string, count: int)
  datatype Facet = Facet(name: string, facetElements: seq<FacetElement>)

  /** The first result of a search response. */
  datatype SapiResult = SapiResult(facets: Option<seq<Facet>>)

  /** `sapiResult.sapiObj.sapiObj.results`: absent when any level of the path is missing; an
      entry of the list may be missing too. */
  datatype SapiResponse = SapiResponse(results: Option<seq<Option<SapiResult>>>)

  /** A facet element tagged with its taxonomy. */
  datatype Tagged = Tagged(name: string, count: int, nameCsv: string)

  /** `v1AnnosByTaxonomy`: the taxonomies in order of first appearance, with the tagged
      elements of each. */
  datatype TopicSummary = TopicSummary(taxonomies: seq<string>, byTaxonomy: map<string, seq<Tagged>>)

  /** The facets the grouping reads: those of the first result, when the whole path is there. */
  function FacetsOf(response: SapiResponse): seq<Facet> {
    match response.results
    case None => []
    case Some(results) =>
      if |results| > 0 && results[0].Some? && results[0].value.facets.Some? then results[0].value.facets.value else []
  }

  /** `element.nameCsv = taxonomy + ":" + element.name` */
  function TagElement(taxonomy: string, e: FacetElement): (r: Tagged)
    ensures r.name == e.name && r.count == e.count && r.nameCsv == taxonomy + ":" + e.name
  {
    Tagged(e.name, e.count, taxonomy + ":" + e.name)
  }

  function TagAll(taxonomy: string, es: seq<FacetElement>): (r: seq<Tagged>)
    ensures |r| == |es| && forall j :: 0 <= j < |es| ==> r[j] == TagElement(taxonomy, es[j])
  {
    seq(|es|, j requires 0 <= j < |es| => TagElement(taxonomy, es[j]))
  }

  function FacetNames(facets: seq<Facet>): (r: seq<string>)
    ensures |r| == |facets| && forall i :: 0 <= i < |facets| ==> r[i] == facets[i].name
  {
    seq(|facets|, i requires 0 <= i < |facets| => facets[i].name)
  }

  /** Every element of every facet named `taxonomy`, tagged, in facet order and then element
      order. */
  function ElementsOf(facets: seq<Facet>, taxonomy: string): seq<Tagged>
    decreases |facets|
  {
    if |facets| == 0 then []
    else
      var f := facets[|facets| - 1];
      ElementsOf(facets[..|facets| - 1], taxonomy) + if f.name == taxonomy then TagAll(taxonomy, f.facetElements) else []
  }

  lemma {:induction false} ElementsOfAbsent(facets: seq<Facet>, taxonomy: string)
    requires taxonomy !in FacetNames(facets)
    ensures ElementsOf(facets, taxonomy) == []
    decreases |facets|
  {
    if |facets| > 0 {
      var init := facets[..|facets| - 1];
      assert FacetNames(init) == FacetNames(facets)[..|init|];
      ElementsOfAbsent(init, taxonomy);
      assert facets[|facets| - 1].name == FacetNames(facets)[|init|];
    }
  }

  /** What the grouping holds after the first facets: the taxonomies in order of first
      appearance, each with its tagged elements. */
  ghost predicate GroupedAs(summary: TopicSummary, facets: seq<Facet>) {
    && summary.taxonomies == Dedupe(FacetNames(facets))
    && (forall t :: t in summary.byTaxonomy <==> t in summary.taxonomies)
    && (forall t :: t in summary.byTaxonomy ==> summary.byTaxonomy[t] == ElementsOf(facets, t))
  }

  /** The taxonomy list is the key order of a map with exactly those keys. */
  lemma GroupedKeys(summary: TopicSummary, facets: seq<Facet>)
    requires GroupedAs(summary, facets)
    ensures NoDuplicates(summary.taxonomies)
    ensures forall t :: t in summary.byTaxonomy <==> t in FacetNames(facets)
  {
    var names := FacetNames(facets);
    DedupeFacts(names);
    var kept, all := set x | x in Dedupe(names), set x | x in names;
    assert kept == all;
    forall t ensures t in summary.taxonomies <==> t in names {
      if t in summary.taxonomies {
        assert t in kept;
      }
      if t in names {
        assert t in all;
      }
    }
  }

  /** The taxonomy list after one more facet: its taxonomy is added when new. */
  lemma GroupedStepKeys(summary: TopicSummary, facets: seq<Facet>, i: nat, taxonomies': seq<string>)
    requires i < |facets| && GroupedAs(summary, facets[..i])
    requires var t := facets[i].name;
             taxonomies' == if t in summary.byTaxonomy then summary.taxonomies else summary.taxonomies + [t]
    ensures taxonomies' == Dedupe(FacetNames(facets[..i + 1]))
  {
    var names := FacetNames(facets[..i]);
    assert facets[..i + 1][..i] == facets[..i];
    assert FacetNames(facets[..i + 1]) == names + [facets[i].name];
    assert (names + [facets[i].name])[..|names|] == names;
  }

  /** The lists after one more facet: its elements are appended to its taxonomy's list. */
  lemma GroupedStepValues(summary: TopicSummary, facets: seq<Facet>, i: nat, byTaxonomy': map<string, seq<Tagged>>)
    requires i < |facets| && GroupedAs(summary, facets[..i])
    requires var t := facets[i].name;
             var start := if t in summary.byTaxonomy then summary.byTaxonomy[t] else [];
             byTaxonomy' == summary.byTaxonomy[t := start + TagAll(t, facets[i].facetElements)]
    ensures forall u :: u in byTaxonomy' ==> byTaxonomy'[u] == ElementsOf(facets[..i + 1], u)
  {
    var t := facets[i].name;
    var tagged := TagAll(t, facets[i].facetElements);
    if t !in summary.byTaxonomy {
      GroupedKeys(summary, facets[..i]);
      ElementsOfAbsent(facets[..i], t);
      assert [] + tagged == tagged;
    }
    forall u | u in byTaxonomy' ensures byTaxonomy'[u] == ElementsOf(facets[..i + 1], u) {
      ElementsOfSnoc(facets, i, u);
      if u != t {
        assert ElementsOf(facets[..i], u) + [] == ElementsOf(facets[..i], u);
      }
    }
  }

  lemma ElementsOfSnoc(facets: seq<Facet>, i: nat, u: string)
    requires i < |facets|
    ensures ElementsOf(facets[..i + 1], u) ==
              ElementsOf(facets[..i], u) + if facets[i].name == u then TagAll(u, facets[i].facetElements) else []
  {
    assert facets[..i + 1][..i] == facets[..i];
  }

  /** The inner `facet.facetElements.forEach`: tag each element and append it to the list. */
  method AppendTagged(byTaxonomy: map<string, seq<Tagged>>, taxonomy: string, elements: seq<FacetElement>)
    returns (byTaxonomy': map<string, seq<Tagged>>)
    requires taxonomy in byTaxonomy
    ensures byTaxonomy' == byTaxonomy[taxonomy := byTaxonomy[taxonomy] + TagAll(taxonomy, elements)]
  {
    byTaxonomy' := byTaxonomy;
    ghost var start := byTaxonomy[taxonomy];
    assert TagAll(taxonomy, elements[..0]) == [];
    assert start + [] == start;
    for j := 0 to |elements|
      invariant byTaxonomy' == byTaxonomy[taxonomy := start + TagAll(taxonomy, elements[..j])]
    {
      var tagged := TagElement(taxonomy, elements[j]);
      assert TagAll(taxonomy, elements[..j + 1]) == TagAll(taxonomy, elements[..j]) + [tagged];
      assert (start + TagAll(taxonomy, elements[..j])) + [tagged] == start + (TagAll(taxonomy, elements[..j]) + [tagged]);
      byTaxonomy' := byTaxonomy'[taxonomy := byTaxonomy'[taxonomy] + [tagged]];
    }
    assert elements[..|elements|] == elements;
  }

  /** The grouping step: each facet's elements are tagged with its taxonomy and appended to
      that taxonomy's list. */
  method GroupFacets(response: SapiResponse) returns (summary: TopicSummary)
    ensures GroupedAs(summary, FacetsOf(response))
  {
    var facets := FacetsOf(response);
    var taxonomies: seq<string>, byTaxonomy: map<string, seq<Tagged>> := [], map[];
    for i := 0 to |facets|
      invariant GroupedAs(TopicSummary(taxonomies, byTaxonomy), facets[..i])
    {
      ghost var before := TopicSummary(taxonomies, byTaxonomy);
      var taxonomy := facets[i].name;
      if taxonomy !in byTaxonomy {
        taxonomies, byTaxonomy := taxonomies + [taxonomy], byTaxonomy[taxonomy := []];
      }
      ghost var start := byTaxonomy[taxonomy];
      byTaxonomy := AppendTagged(byTaxonomy, taxonomy, facets[i].facetElements);
      assert byTaxonomy == before.byTaxonomy[taxonomy := start + TagAll(taxonomy, facets[i].facetElements)];
      GroupedStepKeys(before, facets, i, taxonomies);
      GroupedStepValues(before, facets, i, byTaxonomy);
    }
    assert facets[..|facets|] == facets;
    summary := TopicSummary(taxonomies, byTaxonomy);
  }

  // ---------------------------------------------------------------------------
  // `compareYearsTopics`

  /** One result of `fetchSapiTopicSummary`. */
  datatype YearSummary = YearSummary(year: int, v1AnnosByTaxonomy: TopicSummary)

  /** `counts`: a topic's count in the first year and in the second. */
  datatype Counts = Counts(first: int, second: int) {
    /** `counts[i]` */
    function At(i: nat): int
      requires i < 2
    {
      if i == 0 then first else second
    }

    /** `counts[i] = v` */
    function Set(i: nat, v: int): (r: Counts)
      requires i < 2
      ensures r.At(i) == v && (i == 0 ==> r.second == second) && (i == 1 ==> r.first == first)
    {
      if i == 0 then this.(first := v) else this.(second := v)
    }
  }

  /** A topic's entry: its counts, their maximum and minimum, and the change from the first
      year to the second. `fractionDelta` is `delta / maxCount`, and `absFractionDelta` its
      absolute value. */
  datatype Compared = Compared(name: string, nameCsv: string, counts: Counts, maxCount: int, minCount: int, delta: int)

  function Max(a: int, b: int): int {
    if a >= b then a else b
  }

  function Min(a: int, b: int): int {
    if a <= b then a else b
  }

  /** The derived fields `names.forEach` sets from the counts. */
  function Derive(e: Compared): Compared {
    e.(maxCount := Max(e.counts.first, e.counts.second),
       minCount := Min(e.counts.first, e.counts.second),
       delta := e.counts.second - e.counts.first)
  }

  predicate Derived(e: Compared) {
    && e.maxCount == Max(e.counts.first, e.counts.second)
    && e.minCount == Min(e.counts.first, e.counts.second)
    && e.delta == e.counts.second - e.counts.first
  }

  /** With counts that are not negative, the minimum is at most the maximum and the change is
      at most the maximum either way. */
  lemma DerivedBounds(e: Compared)
    requires Derived(e) && e.counts.first >= 0 && e.counts.second >= 0
    ensures 0 <= e.minCount <= e.maxCount
    ensures -e.maxCount <= e.delta <= e.maxCount
    ensures e.maxCount == 0 <==> e.counts == Counts(0, 0)
  {
  }

  /** `combinedByTaxonomy[taxonomy]`: the topic names in order of first appearance, with
      their entries. */
  datatype TaxonomyAnnos = TaxonomyAnnos(names: seq<string>, annos: map<string, Compared>)

  /** The entry a topic gets when first seen: counts `[0,0]`. */
  function NewEntry(anno: Tagged): Compared {
    Compared(anno.name, anno.nameCsv, Counts(0, 0), 0, 0, 0)
  }

  /** One annotation of `searchResponse.v1AnnosByTaxonomy[taxonomy].forEach`. */
  function SetCount(ta: TaxonomyAnnos, anno: Tagged, i: nat): TaxonomyAnnos
    requires i < 2
  {
    var n := anno.name;
    var created := if n in ta.annos then ta else TaxonomyAnnos(ta.names + [n], ta.annos[n := NewEntry(anno)]);
    var e := created.annos[n];
    created.(annos := created.annos[n := e.(counts := e.counts.Set(i, anno.count))])
  }

  function AddAnnos(ta: TaxonomyAnnos, list: seq<Tagged>, i: nat): TaxonomyAnnos
    requires i < 2
    decreases |list|
  {
    if |list| == 0 then ta else SetCount(AddAnnos(ta, list[..|list| - 1], i), list[|list| - 1], i)
  }

  /** `names.forEach(...)`: the derived fields of each listed entry. */
  function DeriveNames(annos: map<string, Compared>, names: seq<string>): map<string, Compared>
    decreases |names|
  {
    if |names| == 0 then annos
    else
      var m := DeriveNames(annos, names[..|names| - 1]);
      var n := names[|names| - 1];
      if n in m then m[n := Derive(m[n])] else m
  }

  /** The taxonomies in order of first appearance, with their topics. */
  datatype Combined = Combined(taxonomies: seq<string>, byTaxonomy: map<string, TaxonomyAnnos>)

  /** The list a response gives for a taxonomy (none when it has no such key). */
  function ListOf(r: TopicSummary, t: string): seq<Tagged> {
    if t in r.byTaxonomy then r.byTaxonomy[t] else []
  }

  /** One taxonomy of `taxonomies.forEach`: its annotations set the counts of response `i`,
      then every topic of the taxonomy has its derived fields set again. */
  function TaxonomyStep(c: Combined, r: TopicSummary, i: nat, t: string): Combined
    requires i < 2
  {
    var created := if t in c.byTaxonomy then c else Combined(c.taxonomies + [t], c.byTaxonomy[t := TaxonomyAnnos([], map[])]);
    var ta := AddAnnos(created.byTaxonomy[t], ListOf(r, t), i);
    created.(byTaxonomy := created.byTaxonomy[t := ta.(annos := DeriveNames(ta.annos, ta.names))])
  }

  function ResponseStep(c: Combined, r: TopicSummary, i: nat, ts: seq<string>): Combined
    requires i < 2
    decreases |ts|
  {
    if |ts| == 0 then c else TaxonomyStep(ResponseStep(c, r, i, ts[..|ts| - 1]), r, i, ts[|ts| - 1])
  }

  /** `searchResponses.forEach((searchResponse, responseIndex) => ...)` */
  function CombineAll(responses: seq<YearSummary>): Combined
    requires |responses| <= 2
    decreases |responses|
  {
    if |responses| == 0 then Combined([], map[])
    else
      var i := |responses| - 1;
      ResponseStep(CombineAll(responses[..i]), responses[i].v1AnnosByTaxonomy, i, responses[i].v1AnnosByTaxonomy.taxonomies)
  }

  datatype Comparison = Comparison(years: seq<int>, combinedByTaxonomy: Combined)

  /** `compareYearsTopics(searchResponses)`, for the two years the comparison is made of. */
  function CompareYears(responses: seq<YearSummary>): Comparison
    requires |responses| <= 2
  {
    Comparison(seq(|responses|, k requires 0 <= k < |responses| => responses[k].year), CombineAll(responses))
  }

  // ---------------------------------------------------------------------------
  // What the comparison holds

  /** The count the last annotation named `n` in a list gives, if any. */
  function LastCount(list: seq<Tagged>, n: string): Option<int>
    decreases |list|
  {
    if |list| == 0 then None
    else if list[|list| - 1].name == n then Some(list[|list| - 1].count)
    else LastCount(list[..|list| - 1], n)
  }

  /** The count a response reports for topic `n` of taxonomy `t`, if it lists it. */
  function Reported(r: TopicSummary, t: string, n: string): Option<int> {
    if t in r.taxonomies then LastCount(ListOf(r, t), n) else None
  }

  function CountsOf(ta: TaxonomyAnnos, n: string): Counts {
    if n in ta.annos then ta.annos[n].counts else Counts(0, 0)
  }

  function CountsIn(c: Combined, t: string, n: string): Counts {
    if t in c.byTaxonomy then CountsOf(c.byTaxonomy[t], n) else Counts(0, 0)
  }

  predicate HasEntry(c: Combined, t: string, n: string) {
    t in c.byTaxonomy && n in c.byTaxonomy[t].annos
  }

  /** Setting `counts[i]` when a count is reported. */
  function Apply(cs: Counts, i: nat, reported: Option<int>): Counts
    requires i < 2
  {
    match reported
    case None => cs
    case Some(v) => cs.Set(i, v)
  }

  /** A taxonomy's name list lists exactly its entries, each entry under its own name. */
  ghost predicate NamesCover(ta: TaxonomyAnnos) {
    && (forall n :: n in ta.annos <==> n in ta.names)
    && (forall n :: n in ta.annos ==> ta.annos[n].name == n)
  }

  /** Every entry's fields are derived from its counts. */
  ghost predicate AllDerived(ta: TaxonomyAnnos) {
    forall n :: n in ta.annos ==> Derived(ta.annos[n])
  }

  /** The taxonomy list lists exactly the taxonomies, and each taxonomy is covered by its
      name list and derived. */
  ghost predicate Consistent(c: Combined) {
    && (forall t :: t in c.byTaxonomy <==> t in c.taxonomies)
    && (forall t :: t in c.byTaxonomy ==> NamesCover(c.byTaxonomy[t]) && AllDerived(c.byTaxonomy[t]))
  }

  lemma {:induction false} AddAnnosCounts(ta: TaxonomyAnnos, list: seq<Tagged>, i: nat, n: string)
    requires i < 2
    ensures n in AddAnnos(ta, list, i).annos <==> n in ta.annos || LastCount(list, n).Some?
    ensures CountsOf(AddAnnos(ta, list, i), n) == Apply(CountsOf(ta, n), i, LastCount(list, n))
    decreases |list|
  {
    if |list| > 0 {
      AddAnnosCounts(ta, list[..|list| - 1], i, n);
    }
  }

  lemma {:induction false} AddAnnosCover(ta: TaxonomyAnnos, list: seq<Tagged>, i: nat)
    requires i < 2 && NamesCover(ta)
    ensures NamesCover(AddAnnos(ta, list, i))
    decreases |list|
  {
    if |list| > 0 {
      AddAnnosCover(ta, list[..|list| - 1], i);
    }
  }

  lemma {:induction false} DeriveNamesEntry(annos: map<string, Compared>, names: seq<string>, n: string)
    ensures n in DeriveNames(annos, names) <==> n in annos
    ensures n in annos ==> DeriveNames(annos, names)[n] == if n in names then Derive(annos[n]) else annos[n]
    decreases |names|
  {
    if |names| > 0 {
      var init := names[..|names| - 1];
      DeriveNamesEntry(annos, init, n);
      assert n in names <==> n in init || n == names[|names| - 1] by {
        assert names == init + [names[|names| - 1]];
      }
    }
  }

  /** One taxonomy step changes only that taxonomy, and there applies the list's last count
      of each topic. */
  lemma TaxonomyStepCounts(c: Combined, r: TopicSummary, i: nat, t: string, u: string, n: string)
    requires i < 2
    ensures var c' := TaxonomyStep(c, r, i, t);
            && (u in c'.byTaxonomy <==> u in c.byTaxonomy || u == t)
            && (HasEntry(c', u, n) <==> HasEntry(c, u, n) || (u == t && LastCount(ListOf(r, t), n).Some?))
            && CountsIn(c', u, n) == if u == t then Apply(CountsIn(c, t, n), i, LastCount(ListOf(r, t), n)) else CountsIn(c, u, n)
  {
    var created := if t in c.byTaxonomy then c else Combined(c.taxonomies + [t], c.byTaxonomy[t := TaxonomyAnnos([], map[])]);
    var ta := AddAnnos(created.byTaxonomy[t], ListOf(r, t), i);
    AddAnnosCounts(created.byTaxonomy[t], ListOf(r, t), i, n);
    DeriveNamesEntry(ta.annos, ta.names, n);
  }

  /** Deriving every listed name of a covered taxonomy derives all of it. */
  lemma DeriveCovered(ta: TaxonomyAnnos)
    requires NamesCover(ta)
    ensures var ta' := ta.(annos := DeriveNames(ta.annos, ta.names));
            NamesCover(ta') && AllDerived(ta')
  {
    var derived := DeriveNames(ta.annos, ta.names);
    forall n ensures (n in derived <==> n in ta.names) && (n in derived ==> derived[n] == Derive(ta.annos[n])) {
      DeriveNamesEntry(ta.annos, ta.names, n);
    }
  }

  lemma TaxonomyStepConsistent(c: Combined, r: TopicSummary, i: nat, t: string)
    requires i < 2 && Consistent(c)
    ensures Consistent(TaxonomyStep(c, r, i, t))
  {
    var created := if t in c.byTaxonomy then c else Combined(c.taxonomies + [t], c.byTaxonomy[t := TaxonomyAnnos([], map[])]);
    assert NamesCover(created.byTaxonomy[t]);
    var ta := AddAnnos(created.byTaxonomy[t], ListOf(r, t), i);
    AddAnnosCover(created.byTaxonomy[t], ListOf(r, t), i);
    DeriveCovered(ta);
  }

  /** A response's taxonomy steps: each listed taxonomy applies its last counts, once or
      again, and nothing else changes. */
  lemma {:induction false} ResponseStepCounts(c: Combined, r: TopicSummary, i: nat, ts: seq<string>, t: string, n: string)
    requires i < 2
    ensures var c' := ResponseStep(c, r, i, ts);
            && (t in c'.byTaxonomy <==> t in c.byTaxonomy || t in ts)
            && (HasEntry(c', t, n) <==> HasEntry(c, t, n) || (t in ts && LastCount(ListOf(r, t), n).Some?))
            && CountsIn(c', t, n) == if t in ts then Apply(CountsIn(c, t, n), i, LastCount(ListOf(r, t), n)) else CountsIn(c, t, n)
    decreases |ts|
  {
    if |ts| > 0 {
      var init, last := ts[..|ts| - 1], ts[|ts| - 1];
      ResponseStepCounts(c, r, i, init, t, n);
      TaxonomyStepCounts(ResponseStep(c, r, i, init), r, i, last, t, n);
      assert t in ts <==> t in init || t == last by {
        assert ts == init + [last];
      }
    }
  }

  lemma {:induction false} ResponseStepConsistent(c: Combined, r: TopicSummary, i: nat, ts: seq<string>)
    requires i < 2 && Consistent(c)
    ensures Consistent(ResponseStep(c, r, i, ts))
    decreases |ts|
  {
    if |ts| > 0 {
      ResponseStepConsistent(c, r, i, ts[..|ts| - 1]);
      TaxonomyStepConsistent(ResponseStep(c, r, i, ts[..|ts| - 1]), r, i, ts[|ts| - 1]);
    }
  }

  /** `counts[j]` of a topic is the count response `j` reports for it, or 0 when that response
      does not list it. */
  lemma {:induction false} CombineAllCounts(responses: seq<YearSummary>, t: string, n: string, j: nat)
    requires |responses| <= 2 && j < 2
    ensures CountsIn(CombineAll(responses), t, n).At(j) ==
              if j < |responses| then Reported(responses[j].v1AnnosByTaxonomy, t, n).GetOr(0) else 0
    decreases |responses|
  {
    if |responses| > 0 {
      var i := |responses| - 1;
      var r := responses[i].v1AnnosByTaxonomy;
      CombineAllCounts(responses[..i], t, n, j);
      CombineAllCounts(responses[..i], t, n, i);
      ResponseStepCounts(CombineAll(responses[..i]), r, i, r.taxonomies, t, n);
      if j < i {
        assert responses[..i][j] == responses[j];
      }
    }
  }

  /** A topic has an entry exactly when some response lists it under the taxonomy. */
  lemma {:induction false} CombineAllEntries(responses: seq<YearSummary>, t: string, n: string)
    requires |responses| <= 2
    ensures HasEntry(CombineAll(responses), t, n) <==>
              exists j :: 0 <= j < |responses| && Reported(responses[j].v1AnnosByTaxonomy, t, n).Some?
    decreases |responses|
  {
    if |responses| > 0 {
      var i := |responses| - 1;
      var r := responses[i].v1AnnosByTaxonomy;
      var init := responses[..i];
      var c := CombineAll(init);
      assert CombineAll(responses) == ResponseStep(c, r, i, r.taxonomies);
      CombineAllEntries(init, t, n);
      ResponseStepCounts(c, r, i, r.taxonomies, t, n);
      SomeReportStep(responses, t, n);
    }
  }

  lemma SomeReportStep(responses: seq<YearSummary>, t: string, n: string)
    requires |responses| > 0
    ensures var i := |responses| - 1;
            (exists j :: 0 <= j < |responses| && Reported(responses[j].v1AnnosByTaxonomy, t, n).Some?) <==>
              (exists j :: 0 <= j < i && Reported(responses[..i][j].v1AnnosByTaxonomy, t, n).Some?) ||
              Reported(responses[i].v1AnnosByTaxonomy, t, n).Some?
  {
    var i := |responses| - 1;
    if exists j :: 0 <= j < |responses| && Reported(responses[j].v1AnnosByTaxonomy, t, n).Some? {
      var j :| 0 <= j < |responses| && Reported(responses[j].v1AnnosByTaxonomy, t, n).Some?;
      if j < i { assert responses[..i][j] == responses[j]; }
    }
    if exists j :: 0 <= j < i && Reported(responses[..i][j].v1AnnosByTaxonomy, t, n).Some? {
      var j :| 0 <= j < i && Reported(responses[..i][j].v1AnnosByTaxonomy, t, n).Some?;
      assert responses[..i][j] == responses[j];
    }
  }

  /** A taxonomy is there exactly when some response lists it. */
  lemma {:induction false} CombineAllTaxonomies(responses: seq<YearSummary>, t: string)
    requires |responses| <= 2
    ensures t in CombineAll(responses).byTaxonomy <==>
              exists j :: 0 <= j < |responses| && t in responses[j].v1AnnosByTaxonomy.taxonomies
    decreases |responses|
  {
    if |responses| > 0 {
      var i := |responses| - 1;
      var r := responses[i].v1AnnosByTaxonomy;
      var init := responses[..i];
      CombineAllTaxonomies(init, t);
      ResponseStepCounts(CombineAll(init), r, i, r.taxonomies, t, "");
      if exists j :: 0 <= j < |responses| && t in responses[j].v1AnnosByTaxonomy.taxonomies {
        var j :| 0 <= j < |responses| && t in responses[j].v1AnnosByTaxonomy.taxonomies;
        if j < i { assert init[j] == responses[j]; }
      }
      if t in CombineAll(init).byTaxonomy {
        var j :| 0 <= j < |init| && t in init[j].v1AnnosByTaxonomy.taxonomies;
        assert init[j] == responses[j];
      }
    }
  }

  lemma {:induction false} CombineAllConsistent(responses: seq<YearSummary>)
    requires |responses| <= 2
    ensures Consistent(CombineAll(responses))
    decreases |responses|
  {
    if |responses| > 0 {
      var i := |responses| - 1;
      CombineAllConsistent(responses[..i]);
      ResponseStepConsistent(CombineAll(responses[..i]), responses[i].v1AnnosByTaxonomy, i, responses[i].v1AnnosByTaxonomy.taxonomies);
    }
  }

  /** What `compareYearsTopics` promises of each topic: its counts are those the two years
      report (0 where a year does not list it), the derived fields follow from them, and a
      topic appears exactly when some year lists it. */
  lemma CompareYearsEntry(responses: seq<YearSummary>, t: string, n: string)
    requires |responses| <= 2
    ensures var c := CompareYears(responses);
            && |c.years| == |responses|
            && (forall k :: 0 <= k < |responses| ==> c.years[k] == responses[k].year)
            && (HasEntry(c.combinedByTaxonomy, t, n) <==>
                  exists j :: 0 <= j < |responses| && Reported(responses[j].v1AnnosByTaxonomy, t, n).Some?)
            && (HasEntry(c.combinedByTaxonomy, t, n) ==>
                  var e := c.combinedByTaxonomy.byTaxonomy[t].annos[n];
                  && e.name == n && Derived(e)
                  && e.counts.first == (if 0 < |responses| then Reported(responses[0].v1AnnosByTaxonomy, t, n).GetOr(0) else 0)
                  && e.counts.second == (if 1 < |responses| then Reported(responses[1].v1AnnosByTaxonomy, t, n).GetOr(0) else 0))
  {
    var c := CombineAll(responses);
    CombineAllEntries(responses, t, n);
    CombineAllConsistent(responses);
    CombineAllCounts(responses, t, n, 0);
    CombineAllCounts(responses, t, n, 1);
    if HasEntry(c, t, n) {
      assert CountsIn(c, t, n) == c.byTaxonomy[t].annos[n].counts;
    }
  }

  /** With reported counts that are not negative, the minimum is at most the maximum and the
      change is bounded by the maximum. */
  lemma CompareYearsBounds(responses: seq<YearSummary>, t: string, n: string)
    requires |responses| <= 2
    requires forall j :: 0 <= j < |responses| ==> Reported(responses[j].v1AnnosByTaxonomy, t, n).GetOr(0) >= 0
    requires HasEntry(CompareYears(responses).combinedByTaxonomy, t, n)
    ensures var e := CompareYears(responses).combinedByTaxonomy.byTaxonomy[t].annos[n];
            0 <= e.minCount <= e.maxCount && -e.maxCount <= e.delta <= e.maxCount
  {
    CompareYearsEntry(responses, t, n);
    DerivedBounds(CompareYears(responses).combinedByTaxonomy.byTaxonomy[t].annos[n]);
  }

  /** The annotation loop of one taxonomy. */
  method CountAnnos(ta: TaxonomyAnnos, list: seq<Tagged>, i: nat) returns (ta': TaxonomyAnnos)
    requires i < 2
    ensures ta' == AddAnnos(ta, list, i)
  {
    var names, annos := ta.names, ta.annos;
    for j := 0 to |list|
      invariant TaxonomyAnnos(names, annos) == AddAnnos(ta, list[..j], i)
    {
      assert list[..j + 1][..j] == list[..j];
      var name := list[j].name;
      if name !in annos {
        names, annos := names + [name], annos[name := NewEntry(list[j])];
      }
      annos := annos[name := annos[name].(counts := annos[name].counts.Set(i, list[j].count))];
    }
    assert list[..|list|] == list;
    ta' := TaxonomyAnnos(names, annos);
  }

  /** The `names.forEach` that sets the derived fields. */
  method DeriveEntries(ta: TaxonomyAnnos) returns (ta': TaxonomyAnnos)
    ensures ta' == ta.(annos := DeriveNames(ta.annos, ta.names))
  {
    var annos := ta.annos;
    for j := 0 to |ta.names|
      invariant annos == DeriveNames(ta.annos, ta.names[..j])
    {
      assert ta.names[..j + 1][..j] == ta.names[..j];
      var name := ta.names[j];
      if name in annos {
        annos := annos[name := Derive(annos[name])];
      }
    }
    assert ta.names[..|ta.names|] == ta.names;
    ta' := ta.(annos := annos);
  }

  /** One taxonomy of a response. */
  method CombineTaxonomy(c: Combined, r: TopicSummary, i: nat, t: string) returns (c': Combined)
    requires i < 2
    ensures c' == TaxonomyStep(c, r, i, t)
  {
    var taxonomies, byTaxonomy := c.taxonomies, c.byTaxonomy;
    if t !in byTaxonomy {
      taxonomies, byTaxonomy := taxonomies + [t], byTaxonomy[t := TaxonomyAnnos([], map[])];
    }
    var taxonomyAnnos := CountAnnos(byTaxonomy[t], ListOf(r, t), i);
    taxonomyAnnos := DeriveEntries(taxonomyAnnos);
    c' := Combined(taxonomies, byTaxonomy[t := taxonomyAnnos]);
  }

  /** `compareYearsTopics(searchResponses)` */
  method CompareYearsTopics(responses: seq<YearSummary>) returns (c: Comparison)
    requires |responses| <= 2
    ensures c == CompareYears(responses)
  {
    var years := seq(|responses|, k requires 0 <= k < |responses| => responses[k].year);
    var combined := Combined([], map[]);
    for k := 0 to |responses|
      invariant combined == CombineAll(responses[..k])
    {
      assert responses[..k + 1][..k] == responses[..k];
      var r := responses[k].v1AnnosByTaxonomy;
      ghost var before := combined;
      for j := 0 to |r.taxonomies|
        invariant combined == ResponseStep(before, r, k, r.taxonomies[..j])
      {
        assert r.taxonomies[..j + 1][..j] == r.taxonomies[..j];
        combined := CombineTaxonomy(combined, r, k, r.taxonomies[j]);
      }
      assert r.taxonomies[..|r.taxonomies|] == r.taxonomies;
    }
    assert responses[..|responses|] == responses;
    c := Comparison(years, combined);
  }

  // ---------------------------------------------------------------------------
  // `classifyComparedTopics`

  datatype Category = NewKids | Increasing | Decreasing | DeadToUs | LittleChange

  /** `categories`, in the order the result lists them. */
  const Categories: seq<Category> := [NewKids, Increasing, Decreasing, DeadToUs, LittleChange]

  function CategoryName(c: Category): string {
    match c
    case NewKids => "newKids"
    case Increasing => "increasing"
    case Decreasing => "decreasing"
    case DeadToUs => "deadToUs"
    case LittleChange => "littleChange"
  }

  lemma CategoriesListed(c: Category)
    ensures c in Categories
    ensures forall i, j :: 0 <= i < j < |Categories| ==> CategoryName(Categories[i]) != CategoryName(Categories[j])
  {
  }

  /** `defaultComparisonParams`: topics below 20 at their peak are ignored, and a change of a
      fifth of the peak, `minFractionDelta` 0.2, counts as a change. */
  const MinCount := 20
  const MinFractionDeltaNum := 1
  const MinFractionDeltaDen := 5

  /** `fractionDelta`: the change as a fraction of the peak. */
  function FractionDelta(e: Compared): real
    requires e.maxCount != 0
  {
    e.delta as real / e.maxCount as real
  }

  /** The category of a topic, or none for a small one; the fraction comparisons are made
      exactly, by cross-multiplying with the peak. */
  function Classify(e: Compared): Option<Category> {
    if e.maxCount < MinCount then None
    else if e.delta * MinFractionDeltaDen <= -(MinFractionDeltaNum * e.maxCount) then
      Some(if e.minCount == 0 then DeadToUs else Decreasing)
    else if e.delta * MinFractionDeltaDen >= MinFractionDeltaNum * e.maxCount then
      Some(if e.minCount == 0 then NewKids else Increasing)
    else Some(LittleChange)
  }

  /** For a positive denominator, comparing a quotient with a constant is comparing the
      numerator with the constant times the denominator. */
  lemma QuotientBound(d: int, m: int, k: real)
    requires m > 0
    ensures d as real / m as real <= k <==> d as real <= k * m as real
    ensures d as real / m as real >= k <==> d as real >= k * m as real
  {
    var q := d as real / m as real;
    assert q * m as real == d as real;
    if q <= k { assert q * m as real <= k * m as real; }
    if q >= k { assert q * m as real >= k * m as real; }
  }

  /** The categories mean what the thresholds on `fractionDelta` say: a topic that peaks at 20
      or more falls by at least 0.2 (dead to us if it vanished, else decreasing), or rises by
      at least 0.2 (new if it was absent, else increasing), or changes little. */
  lemma ClassifyMeansFractions(e: Compared)
    ensures Classify(e).None? <==> e.maxCount < 20
    ensures e.maxCount >= 20 ==>
              && (Classify(e) == Some(DeadToUs) <==> FractionDelta(e) <= -0.2 && e.minCount == 0)
              && (Classify(e) == Some(Decreasing) <==> FractionDelta(e) <= -0.2 && e.minCount != 0)
              && (Classify(e) == Some(NewKids) <==> -0.2 < FractionDelta(e) && 0.2 <= FractionDelta(e) && e.minCount == 0)
              && (Classify(e) == Some(Increasing) <==> -0.2 < FractionDelta(e) && 0.2 <= FractionDelta(e) && e.minCount != 0)
              && (Classify(e) == Some(LittleChange) <==> -0.2 < FractionDelta(e) < 0.2)
  {
    if e.maxCount >= 20 {
      QuotientBound(e.delta, e.maxCount, -0.2);
      QuotientBound(e.delta, e.maxCount, 0.2);
    }
  }

  // The sort of each category: by `absFractionDelta` descending, then by `maxCount`
  // descending, as a stable sort.

  function Abs(x: int): nat {
    if x < 0 then -x else x
  }

  /** The comparator returns -1: `a` has the larger `absFractionDelta`, or the same one and
      the larger `maxCount`; the fractions are compared by cross-multiplying. */
  predicate Ahead(a: Compared, b: Compared) {
    var x, y := Abs(a.delta) * b.maxCount, Abs(b.delta) * a.maxCount;
    x > y || (x == y && a.maxCount > b.maxCount)
  }

  /** Multiplying by a positive number keeps an order. */
  lemma MulMonotone(x: int, y: int, k: int)
    requires k > 0
    ensures x >= y <==> x * k >= y * k
    ensures x > y <==> x * k > y * k
  {
  }

  /** The cross-multiplied order is transitive over positive denominators. */
  lemma CrossTransitive(a: int, b: int, c: int, ma: int, mb: int, mc: int)
    requires ma > 0 && mb > 0 && mc > 0
    requires a * mb >= b * ma && b * mc >= c * mb
    ensures a * mc >= c * ma
    ensures a * mb > b * ma || b * mc > c * mb ==> a * mc > c * ma
    ensures a * mb == b * ma && b * mc == c * mb ==> a * mc == c * ma
  {
    MulMonotone(a * mb, b * ma, mc);
    MulMonotone(b * mc, c * mb, ma);
    assert (b * ma) * mc == (b * mc) * ma;
    assert (a * mb) * mc == (a * mc) * mb;
    assert (c * mb) * ma == (c * ma) * mb;
    MulMonotone(a * mc, c * ma, mb);
  }

  lemma AheadTransitive(a: Compared, b: Compared, c: Compared)
    requires a.maxCount > 0 && b.maxCount > 0 && c.maxCount > 0
    requires Ahead(a, b) && Ahead(b, c)
    ensures Ahead(a, c)
  {
    CrossTransitive(Abs(a.delta), Abs(b.delta), Abs(c.delta), a.maxCount, b.maxCount, c.maxCount);
  }

  /** For positive peaks, `Ahead` is the comparator on the real `absFractionDelta`. */
  lemma AheadMeansComparator(a: Compared, b: Compared)
    requires a.maxCount > 0 && b.maxCount > 0
    ensures Ahead(a, b) <==>
              Abs(a.delta) as real / a.maxCount as real > Abs(b.delta) as real / b.maxCount as real
              || (Abs(a.delta) as real / a.maxCount as real == Abs(b.delta) as real / b.maxCount as real
                  && a.maxCount > b.maxCount)
  {
    var p, q := Abs(a.delta) as real / a.maxCount as real, Abs(b.delta) as real / b.maxCount as real;
    var ma, mb := a.maxCount as real, b.maxCount as real;
    assert p * ma == Abs(a.delta) as real && q * mb == Abs(b.delta) as real;
    assert (Abs(a.delta) * b.maxCount) as real == p * (ma * mb);
    assert (Abs(b.delta) * a.maxCount) as real == q * (ma * mb);
    var w := ma * mb;
    assert w > 0.0;
    if p > q { assert p * w > q * w; }
    if p < q { assert p * w < q * w; }
  }

  /** Each topic is not behind any later one. */
  predicate RankedByChange(s: seq<Compared>) {
    forall i, j :: 0 <= i < j < |s| ==> !Ahead(s[j], s[i])
  }

  /** Places `x` after every entry it is not ahead of. */
  function InsertByChange(s: seq<Compared>, x: Compared): seq<Compared> {
    if |s| == 0 then [x]
    else if Ahead(x, s[0]) then [x] + s
    else [s[0]] + InsertByChange(s[1..], x)
  }

  /** The in-place `sort` of a category, as the stable insertion sort. */
  function SortByChange(s: seq<Compared>): seq<Compared> {
    if |s| == 0 then [] else InsertByChange(SortByChange(s[..|s| - 1]), s[|s| - 1])
  }

  lemma {:induction false} InsertByChangePermutes(s: seq<Compared>, x: Compared)
    ensures multiset(InsertByChange(s, x)) == multiset(s) + multiset{x}
  {
    if |s| > 0 && !Ahead(x, s[0]) {
      InsertByChangePermutes(s[1..], x);
      assert s == [s[0]] + s[1..];
    }
  }

  lemma {:induction false} InsertByChangeRanked(s: seq<Compared>, x: Compared)
    requires RankedByChange(s) && x.maxCount > 0
    requires forall k :: 0 <= k < |s| ==> s[k].maxCount > 0
    ensures RankedByChange(InsertByChange(s, x))
  {
    if |s| > 0 {
      if Ahead(x, s[0]) {
        forall k | 0 <= k < |s| ensures !Ahead(s[k], x) {
          if k > 0 && Ahead(s[k], x) { AheadTransitive(s[k], x, s[0]); }
        }
        assert InsertByChange(s, x) == [x] + s;
      } else {
        var rest := s[1..];
        InsertByChangeRanked(rest, x);
        var r := InsertByChange(rest, x);
        InsertByChangePermutes(rest, x);
        forall j | 0 <= j < |r| ensures !Ahead(r[j], s[0]) {
          assert r[j] in multiset(rest) + multiset{x};
          if r[j] != x {
            var k :| 0 <= k < |rest| && rest[k] == r[j];
            assert s[k + 1] == r[j];
          }
        }
        assert InsertByChange(s, x) == [s[0]] + r;
      }
    }
  }

  lemma {:induction false} SortByChangePermutes(s: seq<Compared>)
    ensures multiset(SortByChange(s)) == multiset(s)
  {
    if |s| > 0 {
      var init, last := s[..|s| - 1], s[|s| - 1];
      var sorted := SortByChange(init);
      SortByChangePermutes(init);
      InsertByChangePermutes(sorted, last);
      PermutesStep(s, sorted, SortByChange(s));
    }
  }

  lemma PermutesStep<T>(s: seq<T>, sortedInit: seq<T>, r: seq<T>)
    requires |s| > 0 && multiset(sortedInit) == multiset(s[..|s| - 1])
    requires multiset(r) == multiset(sortedInit) + multiset{s[|s| - 1]}
    ensures multiset(r) == multiset(s)
  {
    assert s == s[..|s| - 1] + [s[|s| - 1]];
  }

  /** The sort ranks the topics by change and neither adds nor loses any. */
  lemma {:induction false} SortByChangeRanked(s: seq<Compared>)
    requires forall k :: 0 <= k < |s| ==> s[k].maxCount > 0
    ensures RankedByChange(SortByChange(s))
    ensures multiset(SortByChange(s)) == multiset(s)
  {
    SortByChangePermutes(s);
    if |s| > 0 {
      var init := s[..|s| - 1];
      SortByChangeRanked(init);
      var sorted := SortByChange(init);
      forall k | 0 <= k < |sorted| ensures sorted[k].maxCount > 0 {
        assert sorted[k] in multiset(init);
      }
      InsertByChangeRanked(sorted, s[|s| - 1]);
    }
  }

  /** `classifyComparedTopics(comparedTopics)` without its constant `description` and
      `comparisonParams`: each taxonomy maps every category to its topics. */
  datatype Classification = Classification(
    years: seq<int>,
    categories: seq<Category>,
    taxonomies: seq<string>,
    classificationsByTaxonomy: map<string, map<Category, seq<Compared>>>)

  /** The topics of one category, in the taxonomy's name order. */
  function Bucket(ta: TaxonomyAnnos, names: seq<string>, c: Category): seq<Compared>
    decreases |names|
  {
    if |names| == 0 then []
    else
      var n := names[|names| - 1];
      Bucket(ta, names[..|names| - 1], c) + if n in ta.annos && Classify(ta.annos[n]) == Some(c) then [ta.annos[n]] else []
  }

  /** A topic is in a category's bucket exactly when it is one of the listed topics and falls
      in that category. */
  lemma {:induction false} BucketMembers(ta: TaxonomyAnnos, names: seq<string>, c: Category, e: Compared)
    ensures e in Bucket(ta, names, c) <==>
              (exists n :: n in names && n in ta.annos && ta.annos[n] == e) && Classify(e) == Some(c)
    decreases |names|
  {
    if |names| > 0 {
      var init, last := names[..|names| - 1], names[|names| - 1];
      BucketMembers(ta, init, c, e);
      assert names == init + [last];
      if exists n :: n in names && n in ta.annos && ta.annos[n] == e {
        var n :| n in names && n in ta.annos && ta.annos[n] == e;
        if n != last { assert n in init; }
      }
    }
  }

  lemma {:induction false} BucketPeaks(ta: TaxonomyAnnos, names: seq<string>, c: Category)
    ensures forall k :: 0 <= k < |Bucket(ta, names, c)| ==> Bucket(ta, names, c)[k].maxCount >= MinCount
    decreases |names|
  {
    if |names| > 0 {
      BucketPeaks(ta, names[..|names| - 1], c);
    }
  }

  /** One taxonomy: every category, each sorted. */
  function ClassifyTaxonomy(ta: TaxonomyAnnos): map<Category, seq<Compared>> {
    map c | c in Categories :: SortByChange(Bucket(ta, ta.names, c))
  }

  function TaxonomyOf(c: Combined, t: string): TaxonomyAnnos {
    if t in c.byTaxonomy then c.byTaxonomy[t] else TaxonomyAnnos([], map[])
  }

  function Classified(comparison: Comparison): Classification {
    var combined := comparison.combinedByTaxonomy;
    Classification(comparison.years, Categories, combined.taxonomies,
                   map t | t in combined.taxonomies :: ClassifyTaxonomy(TaxonomyOf(combined, t)))
  }

  /** Every taxonomy of the comparison has all five categories; a topic of the taxonomy is in
      a category exactly when it peaks at 20 or more and classifies there, so small topics are
      in none and every other topic in exactly one; each category is ranked by change and
      holds each such topic once for each time the name list has it. */
  lemma ClassifiedTopics(comparison: Comparison, t: string, c: Category, e: Compared)
    requires t in comparison.combinedByTaxonomy.taxonomies
    ensures var cl := Classified(comparison);
            var ta := TaxonomyOf(comparison.combinedByTaxonomy, t);
            && t in cl.classificationsByTaxonomy && c in cl.classificationsByTaxonomy[t]
            && (e in cl.classificationsByTaxonomy[t][c] <==>
                  (exists n :: n in ta.names && n in ta.annos && ta.annos[n] == e) && e.maxCount >= MinCount && Classify(e) == Some(c))
            && RankedByChange(cl.classificationsByTaxonomy[t][c])
            && multiset(cl.classificationsByTaxonomy[t][c]) == multiset(Bucket(ta, ta.names, c))
  {
    var ta := TaxonomyOf(comparison.combinedByTaxonomy, t);
    CategoriesListed(c);
    var bucket := Bucket(ta, ta.names, c);
    BucketPeaks(ta, ta.names, c);
    SortByChangeRanked(bucket);
    BucketMembers(ta, ta.names, c, e);
    assert e in SortByChange(bucket) <==> e in bucket by {
      assert e in multiset(SortByChange(bucket)) <==> e in multiset(bucket);
    }
  }

  const NoTopics: map<Category, seq<Compared>> :=
    map[NewKids := [], Increasing := [], Decreasing := [], DeadToUs := [], LittleChange := []]

  /** `classificationsByTaxonomy[taxonomy][category].push(anno)` for the topic's category. */
  function Push(buckets: map<Category, seq<Compared>>, e: Compared): map<Category, seq<Compared>> {
    match Classify(e)
    case None => buckets
    case Some(c) => buckets[c := (if c in buckets then buckets[c] else []) + [e]]
  }

  /** `annoNames.forEach(...)` */
  function Buckets(ta: TaxonomyAnnos, names: seq<string>): map<Category, seq<Compared>>
    decreases |names|
  {
    if |names| == 0 then NoTopics
    else
      var buckets := Buckets(ta, names[..|names| - 1]);
      var n := names[|names| - 1];
      if n in ta.annos then Push(buckets, ta.annos[n]) else buckets
  }

  lemma {:induction false} BucketsHold(ta: TaxonomyAnnos, names: seq<string>, c: Category)
    ensures c in Buckets(ta, names) && Buckets(ta, names)[c] == Bucket(ta, names, c)
    decreases |names|
  {
    if |names| > 0 {
      BucketsHold(ta, names[..|names| - 1], c);
      assert Bucket(ta, names[..|names| - 1], c) + [] == Bucket(ta, names[..|names| - 1], c);
    }
  }

  /** The name loop of one taxonomy: each topic is pushed onto its category. */
  method BucketTopics(ta: TaxonomyAnnos) returns (buckets: map<Category, seq<Compared>>)
    ensures buckets == Buckets(ta, ta.names)
  {
    buckets := NoTopics;
    for k := 0 to |ta.names|
      invariant buckets == Buckets(ta, ta.names[..k])
    {
      assert ta.names[..k + 1][..k] == ta.names[..k];
      var name := ta.names[k];
      if name in ta.annos {
        var anno := ta.annos[name];
        var category := Classify(anno);
        if category.Some? {
          var list := if category.value in buckets then buckets[category.value] else [];
          buckets := buckets[category.value := list + [anno]];
        }
      }
    }
    assert ta.names[..|ta.names|] == ta.names;
  }

  /** A map over categories that has every category is the comprehension of its values. */
  lemma CategoriesCover(m: map<Category, seq<Compared>>)
    requires forall c | c in Categories :: c in m
    ensures m == map c | c in Categories :: m[c]
  {
    forall c ensures c in Categories { CategoriesListed(c); }
  }

  /** `categories.forEach(category => ...sort(...))`: each category sorted by change. */
  method SortCategories(buckets: map<Category, seq<Compared>>) returns (sorted: map<Category, seq<Compared>>)
    requires forall c | c in Categories :: c in buckets
    ensures sorted == map c | c in Categories :: SortByChange(buckets[c])
  {
    sorted := buckets;
    for j := 0 to |Categories|
      invariant forall c | c in Categories :: c in sorted
      invariant forall i | 0 <= i < |Categories| :: sorted[Categories[i]] == if i < j then SortByChange(buckets[Categories[i]]) else buckets[Categories[i]]
    {
      var c := Categories[j];
      sorted := sorted[c := SortByChange(sorted[c])];
    }
    forall c | c in Categories ensures sorted[c] == SortByChange(buckets[c]) {
      var i :| 0 <= i < |Categories| && Categories[i] == c;
    }
    CategoriesCover(sorted);
  }

  /** The body of `taxonomies.forEach` for one taxonomy. */
  method ClassifyTaxonomyTopics(ta: TaxonomyAnnos) returns (byCategory: map<Category, seq<Compared>>)
    ensures byCategory == ClassifyTaxonomy(ta)
  {
    var buckets := BucketTopics(ta);
    forall c | c in Categories ensures c in buckets && buckets[c] == Bucket(ta, ta.names, c) {
      BucketsHold(ta, ta.names, c);
    }
    byCategory := SortCategories(buckets);
  }

  /** The classifications of the taxonomies listed so far. */
  function ClassifiedSoFar(combined: Combined, ts: seq<string>): map<string, map<Category, seq<Compared>>> {
    map t | t in ts :: ClassifyTaxonomy(TaxonomyOf(combined, t))
  }

  /** `classifyComparedTopics(comparedTopics)` */
  method ClassifyComparedTopics(comparison: Comparison) returns (cl: Classification)
    ensures cl == Classified(comparison)
  {
    var combined := comparison.combinedByTaxonomy;
    var taxonomies := combined.taxonomies;
    var byTaxonomy := map[];
    for i := 0 to |taxonomies|
      invariant byTaxonomy == ClassifiedSoFar(combined, taxonomies[..i])
    {
      var t := taxonomies[i];
      var byCategory := ClassifyTaxonomyTopics(TaxonomyOf(combined, t));
      assert taxonomies[..i + 1] == taxonomies[..i] + [t];
      byTaxonomy := byTaxonomy[t := byCategory];
    }
    assert taxonomies[..|taxonomies|] == taxonomies;
    cl := Classification(comparison.years, Categories, taxonomies, byTaxonomy);
  }

  // ---------------------------------------------------------------------------
  // `prepDisplayData`

  /** One category of one taxonomy; `items` is absent when the classification has no such
      category (the source then leaves `items` undefined). */
  datatype CategoryView = CategoryView(category: Category, items: Option<seq<Compared>>)

  datatype TaxonomyView = TaxonomyView(taxonomy: string, byCategory: seq<CategoryView>)

  datatype DisplayData = DisplayData(
    year1: int,
    year2: int,
    taxonomies: seq<string>,
    categories: seq<Category>,
    byTaxonomy: seq<TaxonomyView>)

  function ViewOf(cl: Classification, t: string): TaxonomyView
    requires |cl.categories| > 0 ==> t in cl.classificationsByTaxonomy
  {
    var byCategory := if t in cl.classificationsByTaxonomy then cl.classificationsByTaxonomy[t] else map[];
    TaxonomyView(t, seq(|cl.categories|, j requires 0 <= j < |cl.categories| =>
      CategoryView(cl.categories[j], if cl.categories[j] in byCategory then Some(byCategory[cl.categories[j]]) else None)))
  }

  /** `prepDisplayData(year1, year2, classifications)`: the classification laid out taxonomy
      by taxonomy and, within each, category by category, in the orders the classification
      lists them. None when there is a category to read and a listed taxonomy has no
      classification, where the source fails on reading a category of `undefined`; with no
      categories nothing is read, and each taxonomy gets a row with no cells. */
  function PrepDisplayData(year1: int, year2: int, cl: Classification): (r: Option<DisplayData>)
    ensures r.None? <==> |cl.categories| > 0 && exists t :: t in cl.taxonomies && t !in cl.classificationsByTaxonomy
    ensures r.Some? ==>
              && r.value.year1 == year1 && r.value.year2 == year2
              && r.value.taxonomies == cl.taxonomies && r.value.categories == cl.categories
              && |r.value.byTaxonomy| == |cl.taxonomies|
              && forall i | 0 <= i < |cl.taxonomies| ::
                   && r.value.byTaxonomy[i].taxonomy == cl.taxonomies[i]
                   && |r.value.byTaxonomy[i].byCategory| == |cl.categories|
                   && forall j | 0 <= j < |cl.categories| ::
                        && r.value.byTaxonomy[i].byCategory[j].category == cl.categories[j]
                        && (cl.categories[j] in cl.classificationsByTaxonomy[cl.taxonomies[i]] <==>
                              r.value.byTaxonomy[i].byCategory[j].items.Some?)
                        && (r.value.byTaxonomy[i].byCategory[j].items.Some? ==>
                              r.value.byTaxonomy[i].byCategory[j].items.value ==
                                cl.classificationsByTaxonomy[cl.taxonomies[i]][cl.categories[j]])
  {
    if |cl.categories| > 0 && exists t :: t in cl.taxonomies && t !in cl.classificationsByTaxonomy then None
    else
      Some(DisplayData(year1, year2, cl.taxonomies, cl.categories,
        seq(|cl.taxonomies|, i requires 0 <= i < |cl.taxonomies| => ViewOf(cl, cl.taxonomies[i]))))
  }

  /** Displaying a classification made by `classifyComparedTopics` always succeeds: there is a
      row for each taxonomy of the comparison and in it a cell for each of the five categories,
      holding the taxonomy's topics of that category that peak at 20 or more, ranked by change. */
  lemma DisplayClassified(year1: int, year2: int, comparison: Comparison, i: nat, j: nat, e: Compared)
    requires i < |comparison.combinedByTaxonomy.taxonomies| && j < |Categories|
    ensures var r := PrepDisplayData(year1, year2, Classified(comparison));
            var t := comparison.combinedByTaxonomy.taxonomies[i];
            var ta := TaxonomyOf(comparison.combinedByTaxonomy, t);
            && r.Some?
            && |r.value.byTaxonomy| == |comparison.combinedByTaxonomy.taxonomies|
            && r.value.byTaxonomy[i].taxonomy == t
            && |r.value.byTaxonomy[i].byCategory| == 5
            && r.value.byTaxonomy[i].byCategory[j].category == Categories[j]
            && r.value.byTaxonomy[i].byCategory[j].items.Some?
            && RankedByChange(r.value.byTaxonomy[i].byCategory[j].items.value)
            && (e in r.value.byTaxonomy[i].byCategory[j].items.value <==>
                  (exists n :: n in ta.names && n in ta.annos && ta.annos[n] == e) && e.maxCount >= MinCount && Classify(e) == Some(Categories[j]))
  {
    var cl := Classified(comparison);
    var t := comparison.combinedByTaxonomy.taxonomies[i];
    assert !exists t :: t in cl.taxonomies && t !in cl.classificationsByTaxonomy;
    ClassifiedTopics(comparison, t, Categories[j], e);
  }
}
