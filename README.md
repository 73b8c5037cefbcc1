# Overview: search, correlation and year-over-year topic models

This project models, in Dafny, the core of the "overview" service. The service searches a
news archive through its search API (SAPI) and reads article content from its content API
(CAPI). It then correlates the annotations of the articles it finds and compares topic counts
between two years. The model covers:

- `lib/searchAndContent.js`, modelled by these modules:
  - `SapiQuery`: builds the search body.
  - `FetchTimings`: records and summarises fetch timings.
  - `Paginator`: the deep, multi-page search and flattening the pages into articles.
  - `CapiMerge`: merges the two CAPI annotation schemas into one view.
  - `Concertina`: the concertina merge of near-duplicate ranked entries.
  - `Correlation`: correlates one annotation group over a set of articles, and the per-genre
    merged correlation.
- `routes/year.js`, modelled by `YearTopics`:
  - the one-year topic query;
  - grouping a response's facets by taxonomy;
  - combining two years into one entry per topic;
  - classifying topics into five categories of change;
  - the display layout.
- `Common` holds the shared helpers: `Option`/`Result`, string utilities, decimal integers,
  character-code string order and duplicate removal.

How the source maps onto Dafny:

- Code that is pure expression becomes functions with lemmas.
- Loops become methods proved equal to a specification function. The properties the source
  promises are then proved as lemmas about that function.
- The module-level mutable tables become classes with map fields:
  - `FetchTimings`, modelled as `FetchTimings.FetchTimingLog`;
  - `cachedAnnotationsByCsv`, modelled as `CapiMerge.AnnotationCache`.
- The shared `uuidsGroupedByItem` object is threaded through the operations as an in/out map.
- Network calls, the cache and the clock become parameters:
  - the search is an oracle from request offset to page;
  - the clock is an oracle from call number to elapsed milliseconds.

Two behaviours of the code worth stating:

- A `maxResults` outside 1..100 is replaced by 100 in both directions. It is not floored to 1.
- Under the new schema, the primary theme is the *last* `/hasDisplayTag` annotation.
- Under the old schema, the primary theme is the *last* `/about` or `/hasDisplayTag` annotation.

Floating-point thresholds are exact fractions:

- the concertina overlap of 0.66 is modelled as 66/100;
- `minFractionDelta` of 0.2 is modelled as 1/5;
- `fractionDelta` comparisons are made by cross-multiplying with `maxCount`.

`YearTopics.ClassifyMeansFractions` proves that these exact comparisons agree with comparing
the real quotient against ±0.2.

## Model

| member | source | states |
|---|---|---|
| SapiQuery.OntologyKeyHasNoColon | lib/searchAndContent.js:52 | the field group `[a-z]+(?:Id)?` never contains ':', so the pattern can only split at the first ':' |
| SapiQuery.RephraseMatching | lib/searchAndContent.js:52-60 | a constraint the pattern matches as `field:rest` becomes `field:"rest"` |
| SapiQuery.RephraseEntity | lib/searchAndContent.js:50-60 | the definition of `rephraseEntityForQueryString`: the split at the first ':' and the key pattern; what it does is stated by `RephraseMatching` and `RephraseNonMatching` |
| SapiQuery.RephraseNonMatching | lib/searchAndContent.js:53-59 | a constraint that matches at no ':' comes back unchanged |
| SapiQuery.RephrasePeopleExample | lib/searchAndContent.js:50-60 | `people:Donald Trump` becomes `people:"Donald Trump"` |
| SapiQuery.RephraseDateRangeExample | lib/searchAndContent.js:50-60 | a `lastPublishDateTime:>…` range is left alone, as the comment above the pattern intends |
| SapiQuery.Combine | lib/searchAndContent.js:98-108 | each field comes from the caller's params if given, else from `resultContext`, else from the defaults ('', 10, 0, the default aspects, no constraints, the default facets) |
| SapiQuery.ClampMaxResults | lib/searchAndContent.js:95-113 | the result is in 1..100; an in-range value is kept and any other becomes 100 |
| SapiQuery.RephraseAll | lib/searchAndContent.js:124-127 | one rewritten constraint per input constraint, in order |
| SapiQuery.FullQueryString | lib/searchAndContent.js:120-129 | the definition of the query string, the free text or the free text and the rewritten constraints joined by " and "; `ConstructSapiQuery` is proved to post it |
| SapiQuery.ConstructSapiQuery | lib/searchAndContent.js:97-146 | `maxResults` parses back as the clamped value and `offset` as the combined offset; the query string is the free text followed by the rewritten constraints; fixed curations, sort order and sort field |
| SapiQuery.JoinedConstraintsShape | lib/searchAndContent.js:120-129 | with constraints, the query string is the free text, " and ", the first rewritten constraint, then the rest, each preceded by " and " |
| FetchTimings.RecentWindow | lib/searchAndContent.js:167 | for a positive history, `slice(-history)` keeps the last min(length, history) timings |
| FetchTimings.TalliesAddUp | lib/searchAndContent.js:175-189 | ok plus not-ok calls equal the window size, with one not-ok status per not-ok call |
| FetchTimings.StatusesAreNotOkCalls | lib/searchAndContent.js:176-184 | the recorded not-ok statuses are those of the not-ok calls, in call order |
| FetchTimings.MaxIsUpperBound | lib/searchAndContent.js:173-187 | `max` is at least 0 and at least every timing, and is 0 or one of the timings |
| FetchTimings.MinIsLeast | lib/searchAndContent.js:174-188 | for non-negative timings, `min` is -1 on an empty window, else the least timing, which is at most `max` |
| FetchTimings.SummaryCounts | lib/searchAndContent.js:165-199 | `count` never exceeds `totalCount`, and `numOk + numNotOk == count` |
| FetchTimings.SummariseWindow | lib/searchAndContent.js:169-199 | the accumulator loop produces exactly the summary of the window |
| FetchTimings.SummariseMethod | lib/searchAndContent.js:165-167 | a falsy history is replaced by the method's total, and that window is summarised |
| FetchTimings.SummariesFacts | lib/searchAndContent.js:163-202 | one summary per recorded method, each the summary of its own window under the shared size |
| FetchTimings.SummariseAll | lib/searchAndContent.js:162-203 | the outer loop gives every method's summary under the size fixed by the first pass (the history reuse) |
| FetchTimings.FetchTimingLog.Record | lib/searchAndContent.js:150-160 | the timing is appended to its method's list (created on first use) and a new method is added to the key order; nothing else changes |
| FetchTimings.FetchTimingLog.Summarise | lib/searchAndContent.js:162-203 | one summary per recorded method, of that method's recent window |
| FetchTimings.ReusedHistoryBoundsWindows | lib/searchAndContent.js:165-167 | with no history, every later method's window is capped by the first method's total |
| Paginator.Annotate | lib/searchAndContent.js:372-378 | a page gains its depth, echoed offset and page size, index count, page size (0 without results), a non-negative remaining count, and elapsed time |
| Paginator.SearchSapiDeeper | lib/searchAndContent.js:356-400 | the loop returns exactly the pages of the recursive definition |
| Paginator.NoDepthNoSearch | lib/searchAndContent.js:357-359 | a depth below 1 returns no pages |
| Paginator.DeeperShape | lib/searchAndContent.js:381-396 | between 1 and maxDepth pages; a page is the last exactly when one of the three stop conditions holds for it |
| Paginator.Deeper | lib/searchAndContent.js:356-400 | the recursive definition of `searchSapiDeeper` that `SearchSapiDeeper` is proved equal to; its shape and offsets are stated by `DeeperShape` and `DeeperThreadsOffsets` |
| Paginator.DeeperThreadsOffsets | lib/searchAndContent.js:390-395 | page i answers the i-th request offset (the previous offset, 0 if absent, plus the echoed page size), with depth maxDepth - i |
| Paginator.ExampleThreePages | lib/searchAndContent.js:356-400 | 25 hits served 10 at a time take three searches at the default depth |
| Paginator.ExampleDepthTwo | lib/searchAndContent.js:381-388 | a depth of 2 stops after two pages although hits remain |
| Paginator.ExtractArticles | lib/searchAndContent.js:465-477 | succeeds exactly when every page carries results, and then returns as many articles as the pages hold |
| Paginator.ExtractArticlesAppend | lib/searchAndContent.js:469-474 | extracting two runs of pages concatenates their articles |
| Paginator.ExtractArticlesSingle | lib/searchAndContent.js:471-473 | a single page gives exactly its results |
| CapiMerge.OldSchemaIffFirstSignatureIsMajorMentions | lib/searchAndContent.js:412-423 | the schema is old exactly when some `/majorMentions` annotation has no `/implicitlyAbout` or `/hasDisplayTag` annotation before it |
| CapiMerge.DetectSchema | lib/searchAndContent.js:412-423 | the `for`/`break` scan computes the schema verdict |
| CapiMerge.IsNewSchema | lib/searchAndContent.js:412-423 | the definition of the schema verdict that `DetectSchema` is proved to compute; its meaning is stated by `OldSchemaIffFirstSignatureIsMajorMentions` |
| CapiMerge.Massage | lib/searchAndContent.js:404-463 | the definition of the merged view as a fold over the annotations; its fields are stated by the `Massage*`, `LastWhereIsLast` and `CsvsWhereMembers` lemmas |
| CapiMerge.MassageAbouts | lib/searchAndContent.js:439-450 | `abouts` holds the keys of the `/about` and `/majorMentions` annotations, in order |
| CapiMerge.MassageImplicitlyAbouts | lib/searchAndContent.js:444-445 | `implicitlyAbouts` holds the `/implicitlyAbout` keys, in order |
| CapiMerge.MassageMentions | lib/searchAndContent.js:451-452 | `mentions` holds the `/mentions` keys, in order |
| CapiMerge.MassageClassifiedBys | lib/searchAndContent.js:453-454 | `classifiedBys` holds the `/isClassifiedBy` keys, in order |
| CapiMerge.MassageImplicitlyClassifiedBys | lib/searchAndContent.js:455-456 | `implicitlyClassifiedBys` holds the `/implicitlyClassifiedBy` keys, in order |
| CapiMerge.MassageGenre | lib/searchAndContent.js:436-438 | the genre is the label of the last `GENRE` annotation |
| CapiMerge.MassagePrimaryTheme | lib/searchAndContent.js:439-447 | the primary theme is the key of the last `/hasDisplayTag` annotation, or under the old schema the last `/about` or `/hasDisplayTag` one |
| CapiMerge.MassagePrimarilyClassifiedBy | lib/searchAndContent.js:457-458 | the primary classification is the key of the last `/isPrimarilyClassifiedBy` annotation |
| CapiMerge.AtMostOneList | lib/searchAndContent.js:439-459 | the five lists together hold one key per listed annotation, so no annotation is filed twice |
| CapiMerge.SuffixClasses | lib/searchAndContent.js:439-459 | the suffix tests are checked in the source's order, so `/majorMentions` is not taken for `/mentions`, nor `/implicitlyAbout` for `/about` |
| CapiMerge.LastWhereIsLast | lib/searchAndContent.js:436-458 | a single-valued field is absent exactly when no annotation sets it, and otherwise comes from the last annotation that does |
| CapiMerge.CsvsWhereMembers | lib/searchAndContent.js:440-456 | a key is in a list exactly when some annotation filed there has that key |
| CapiMerge.CacheIsLastWriteWins | lib/searchAndContent.js:433-434 | the lookup gains every annotation's key, keeps other entries, and holds the last annotation for each key |
| CapiMerge.File | lib/searchAndContent.js:436-459 | the `if`/`else if` chain files one annotation as the specification function does |
| CapiMerge.AnnotationCache.MergeCapiFlavours | lib/searchAndContent.js:404-463 | returns the merged view under the detected schema, and the lookup becomes the old one with every annotation written in order |
| Concertina.InsertByCountSorted | lib/searchAndContent.js:576 | inserting into a list sorted by descending count keeps it sorted |
| Concertina.InsertByCountPermutes | lib/searchAndContent.js:576 | insertion adds exactly the new entry |
| Concertina.SortByCountSorted | lib/searchAndContent.js:576 | the final sort returns a list sorted by descending count and of the same length |
| Concertina.SortByCountPermutes | lib/searchAndContent.js:576 | the final sort is a permutation |
| Concertina.Overlap | lib/searchAndContent.js:534 | the overlap is at most the bubble's uuid count |
| Concertina.FindFromIsNearest | lib/searchAndContent.js:528-535 | the candidate found is the nearest one at or before the start that overlaps enough; with none found, no entry overlaps enough |
| Concertina.MergeFacts | lib/searchAndContent.js:537-545 | the merged uuids are the duplicate-free union, the count is their number, and the name joins the duplicate-free constituents with " + " |
| Concertina.MergeKeepsCandidateNamesFirst | lib/searchAndContent.js:539 | the candidate's constituents come first in the merged entry, unchanged |
| Concertina.InsertIndexFacts | lib/searchAndContent.js:551-556 | the merged entry goes after the nearest entry at or before the candidate's slot with at least its count, and every entry it passes is smaller |
| Concertina.StepShortens | lib/searchAndContent.js:521-570 | each pass shortens the working list by one and either outputs the bubble or merges it |
| Concertina.RunAccounting | lib/searchAndContent.js:521-574 | the loop leaves at most one entry, and outputs plus merges plus leftover account for the input |
| Concertina.RunTouchesOnlyMergedKeys | lib/searchAndContent.js:559 | the uuid map keeps every key, and only merged names are added or overwritten |
| Concertina.ConcertinaedOfEmpty | lib/searchAndContent.js:573-574 | an empty list gives `[undefined]` and leaves the map unchanged |
| Concertina.ConcertinaedShape | lib/searchAndContent.js:573-578 | a non-empty list gives defined entries sorted by descending count; the entries output plus the merges made equal the input's length |
| Concertina.ConcertinaedUuidMap | lib/searchAndContent.js:559 | every key of the map survives, and new or changed keys are merged names |
| Concertina.FindCandidate | lib/searchAndContent.js:528-535 | the downward scan finds the candidate of the specification |
| Concertina.MergeBubble | lib/searchAndContent.js:536-559 | the merge branch splices the candidate out, inserts the merged entry and records its uuids |
| Concertina.InsertionPoint | lib/searchAndContent.js:551-555 | the insertion loop stops at the specified index |
| Concertina.ConcertinaStep | lib/searchAndContent.js:522-570 | one pass of the `while` is one specification step |
| Concertina.ConcertinaSortedList | lib/searchAndContent.js:493-579 | returns the concertinaed list and the updated uuid map as specified |
| Concertina.Step | lib/searchAndContent.js:522-570 | one pass of the loop: it keeps every entry named in the uuid map, and `StepShortens` shows it shortens the working list by one |
| Concertina.Run | lib/searchAndContent.js:521-574 | the loop run until one entry is left: it keeps every entry named in the uuid map; its accounting is stated by `RunAccounting` and `RunTouchesOnlyMergedKeys` |
| Concertina.Concertinaed | lib/searchAndContent.js:493-579 | the definition of `concertinaSortedListAndUpdateUuidGroups` that `ConcertinaSortedList` is proved to compute; its shape and uuid map are stated by `ConcertinaedShape` and `ConcertinaedUuidMap` |
| Concertina.ConcertinaedWellRanked | lib/searchAndContent.js:493-579 | the result is `[undefined]` for an empty input, otherwise sorted defined entries; all old keys keep their place in the map |
| Concertina.ConcertinaTaxonomiesKeys | lib/searchAndContent.js:592-594 | every taxonomy gets a concertinaed list |
| Concertina.ConcertinaTaxonomiesRanked | lib/searchAndContent.js:592-594 | every taxonomy's list keeps the promises of a single run |
| Concertina.ConcertinaListsFacts | lib/searchAndContent.js:581-597 | the overall list and each taxonomy's list keep those promises, threading one uuid map |
| Concertina.ConcertinaSortedLists | lib/searchAndContent.js:581-597 | the loop over the taxonomies gives the specified lists and map |
| Correlation.GroupNamed | lib/searchAndContent.js:730-735 | exactly the four names `primaryThemes`, `abouts`, `mentions` and `aboutsAndMentions` have an extractor |
| Correlation.LowerAllMatches | lib/searchAndContent.js:607-608 | a key is in the lower-cased ignore list exactly when it equals some entry up to case |
| Correlation.KeepFacts | lib/searchAndContent.js:646-648 | the filter keeps each key as often as it occurs, unless it matches the ignore list up to case, in which case it drops every copy |
| Correlation.AddItemUuids | lib/searchAndContent.js:668-671 | one item appends the uuid to that key's list only |
| Correlation.AddItemsUuids | lib/searchAndContent.js:662-672 | an article adds its uuid to a key's list once per occurrence of the key in its group |
| Correlation.TalliedKeys | lib/searchAndContent.js:662-672 | the key list is the duplicate-free list of keys seen, and counts and uuid lists have exactly those keys |
| Correlation.TalliedUuids | lib/searchAndContent.js:638-704 | `uuidsGroupedByItem[k]` lists the usable articles' uuids, once per occurrence of k, in article order |
| Correlation.TalliedUndefined | lib/searchAndContent.js:653-658 | `undefinedUuids` lists the unusable articles in order, and `undefinedCount` plus the usable articles is the number of articles |
| Correlation.PairWithGet | lib/searchAndContent.js:692-697 | the inner loop adds, for key a and each other key y, the occurrences of y |
| Correlation.HitsIsProduct | lib/searchAndContent.js:691-698 | summed over the outer loop, that is the product of the two keys' occurrence counts |
| Correlation.PairAllGet | lib/searchAndContent.js:691-699 | the nested loops add one per ordered pair of positions holding two distinct keys, and never pair a key with itself |
| Correlation.TalliedPairsAgree | lib/searchAndContent.js:691-699 | no key is paired with itself, and every stored pair count is positive |
| Correlation.TalliedPairs | lib/searchAndContent.js:689-699 | `correlations[a][b]` is the number of co-occurrences of a and b over the usable articles |
| Correlation.CoOccurrencesSymmetric | lib/searchAndContent.js:691-699 | co-occurrence counts are symmetric |
| Correlation.GroupByTaxonomyKeys | lib/searchAndContent.js:678-685 | the taxonomy keys are the distinct text before ':' of the ranked names, in first-appearance order |
| Correlation.GroupByTaxonomyValues | lib/searchAndContent.js:679-685 | each taxonomy holds exactly its ranked entries, in ranked order |
| Correlation.OfTaxonomyMembers | lib/searchAndContent.js:679-685 | a taxonomy's entries come from the list and belong to that taxonomy |
| Correlation.OfTaxonomySorted | lib/searchAndContent.js:679-685 | a taxonomy's entries stay sorted by descending count |
| Correlation.GroupSortedByTaxonomy | lib/searchAndContent.js:678-685 | the grouping loop computes the specified grouping |
| Correlation.InsertStringSorted | lib/searchAndContent.js:687 | insertion keeps the keys in character-code order |
| Correlation.SortStringsSorted | lib/searchAndContent.js:687 | `items` is in character-code order |
| Correlation.SortStringsPermutes | lib/searchAndContent.js:687 | `items` holds the same keys |
| Correlation.EarliestIsLeast | lib/searchAndContent.js:635-639 | the running earliest date is one of the dates and no date is before it |
| Correlation.LatestIsGreatest | lib/searchAndContent.js:635-640 | the running latest date is one of the dates and no date is after it |
| Correlation.RankingsNamed | lib/searchAndContent.js:674-685 | every ranked name, overall and per taxonomy, is a key of the uuid table |
| Correlation.CountGroup | lib/searchAndContent.js:662-672 | the counting loop computes the specified tally |
| Correlation.BumpPair | lib/searchAndContent.js:693-697 | one pair step creates the missing levels and adds one, except for a key paired with itself |
| Correlation.PairGroup | lib/searchAndContent.js:691-699 | the nested pair loops compute the specified pair table |
| Correlation.TallyArticles | lib/searchAndContent.js:633-704 | the article loop computes the specified tables and publication-date range |
| Correlation.WidenRange | lib/searchAndContent.js:639-640 | one date extends the running earliest and latest |
| Correlation.TallyArticle | lib/searchAndContent.js:642-699 | one article is tallied apart when unusable, or counted and paired |
| Correlation.BuildTables | lib/searchAndContent.js:674-702 | the rankings, taxonomy groups, sorted keys and concertina pass built from the tables |
| Correlation.CorrelateGroupInArticles | lib/searchAndContent.js:600-710 | the method computes the specified correlation |
| Correlation.Correlate | lib/searchAndContent.js:600-710 | the definition of one group's correlation that `CorrelateGroupInArticles` is proved to compute; its tables are stated by the `Correlate*` lemmas |
| Correlation.CorrelateUndefined | lib/searchAndContent.js:612-658 | `numArticles` is the article count; `undefinedCount` and `undefinedUuids` cover exactly the articles without usable keys |
| Correlation.CountsMatchUuids | lib/searchAndContent.js:662-672 | `counts[k]` is the length of `uuidsGroupedByItem[k]` |
| Correlation.CorrelateCounts | lib/searchAndContent.js:662-672 | `counts[k]` counts the occurrences of k in the usable groups, and k gets a count exactly when it occurs |
| Correlation.CorrelatePairs | lib/searchAndContent.js:689-699 | `correlations[a][b]` counts co-occurrences, is symmetric, and is never stored for a key paired with itself |
| Correlation.CorrelateRanking | lib/searchAndContent.js:674-676 | the keys are duplicate-free and are exactly those counted; `sortedByCount` is a permutation of their `{name, count}` entries, sorted by descending count; `items` holds the same keys in character-code order |
| Correlation.CorrelateTaxonomyKeys | lib/searchAndContent.js:678-685 | the taxonomy keys are the distinct taxonomies of the ranked keys, in order |
| Correlation.CorrelateTaxonomyGroups | lib/searchAndContent.js:678-685 | each taxonomy holds its ranked entries, sorted |
| Correlation.CorrelatePubdates | lib/searchAndContent.js:633-707 | with articles, the earliest and latest dates are among them and bound all of them; without articles, both are absent |
| Correlation.KeysIffUsable | lib/searchAndContent.js:653-672 | some key has been seen exactly when some article had a usable group |
| Correlation.CorrelateConcertina | lib/searchAndContent.js:701-702 | the concertinaed lists exist exactly when some article was usable, and then keep the concertina promises |
| Correlation.ArticlesInGenres | lib/searchAndContent.js:724-727 | the kept articles are all in the target genres |
| Correlation.ArticlesInGenresCounts | lib/searchAndContent.js:724-727 | an article is kept as often as it occurs if its genre is set and targeted, and never otherwise |
| Correlation.GroupsForEntries | lib/searchAndContent.js:743-747 | a group name has an entry exactly when it is listed and has an extractor, and the entry is that group's correlation |
| Correlation.CorrelateMergedAnnotations | lib/searchAndContent.js:712-754 | the loop over the group names computes the specified merged correlation |
| Correlation.CorrelateMerged | lib/searchAndContent.js:712-754 | the definition of the merged correlation that `CorrelateMergedAnnotations` is proved to compute; its fields are stated by `CorrelateMergedGroups` and `CorrelateMergedDefaults` |
| Correlation.CorrelateMergedGroups | lib/searchAndContent.js:717-747 | genres default to News and Opinion; `numArticlesInGenres` counts the kept articles; each group correlates exactly them |
| Correlation.CorrelateMergedDefaults | lib/searchAndContent.js:713-716 | without a `groups` parameter, exactly `primaryThemes` and `abouts` are correlated |
| YearTopics.ConstructQueryParamsForYearTopicCounts | routes/year.js:12-25 | the query is `lastPublishDateTime:>Y-01-01T00:00:00Z and lastPublishDateTime:<Y+1-01-01T00:00:00Z` (Y defaults to 2018), with one result and no content |
| YearTopics.YearQueryRoundTrip | routes/year.js:12-16 | the year reads back out of its query, so different years give different queries |
| YearTopics.YearQueriesAbut | routes/year.js:14-15 | a year's range ends at the instant the next year's range starts |
| YearTopics.GroupedKeys | routes/year.js:42-46 | the grouping's taxonomies are duplicate-free and are exactly the facet names |
| YearTopics.AppendTagged | routes/year.js:47-50 | the taxonomy's list gains the facet's tagged elements in order; other taxonomies are unchanged |
| YearTopics.GroupFacets | routes/year.js:32-54 | the taxonomies appear in first-appearance order, each holding every tagged element of its facets in order; a missing path gives an empty grouping |
| YearTopics.DerivedBounds | routes/year.js:117-119 | with non-negative counts, 0 <= min <= max, abs(delta) <= max, and max is 0 only for counts [0,0] |
| YearTopics.AddAnnosCounts | routes/year.js:102-112 | a topic's count at the response index is set to the list's last count for it |
| YearTopics.TaxonomyStepCounts | routes/year.js:97-127 | one taxonomy step changes only that taxonomy, setting each listed topic's count |
| YearTopics.CombineAllCounts | routes/year.js:94-112 | `counts[j]` is what response j reports for the topic, or 0 |
| YearTopics.CombineAllEntries | routes/year.js:98-110 | a topic has an entry exactly when some response lists it |
| YearTopics.CombineAllTaxonomies | routes/year.js:96-100 | a taxonomy is present exactly when some response has it |
| YearTopics.CombineAllConsistent | routes/year.js:96-127 | every entry is listed under its own name, and its derived fields follow from its counts |
| YearTopics.CompareYearsEntry | routes/year.js:91-135 | the years are echoed; a topic has an entry exactly when some year lists it, with the counts each year reports (0 when absent) and max, min and delta derived from them |
| YearTopics.CompareYearsBounds | routes/year.js:117-119 | with non-negative reported counts, min <= max and the change is within ±max |
| YearTopics.CountAnnos | routes/year.js:102-112 | the annotation loop computes the specified taxonomy entries |
| YearTopics.DeriveEntries | routes/year.js:114-127 | the derivation loop sets every listed topic's derived fields |
| YearTopics.CombineTaxonomy | routes/year.js:97-127 | one taxonomy of the loop is one specification step |
| YearTopics.CompareYearsTopics | routes/year.js:91-135 | the nested loops compute the specified comparison |
| YearTopics.CompareYears | routes/year.js:91-135 | the definition of the comparison that `CompareYearsTopics` is proved to compute; its entries are stated by the `CombineAll*` and `CompareYears*` lemmas |
| YearTopics.ClassifyMeansFractions | routes/year.js:156-191 | topics below 20 are unclassified; the others fall by 0.2 or more (dead to us when the minimum is 0, else decreasing), rise by 0.2 or more (new or increasing likewise), or change little, judged against the real quotient `delta / maxCount` |
| YearTopics.Classify | routes/year.js:176-191 | the category of a topic by cross-multiplied thresholds; `ClassifyMeansFractions` states what each category means |
| YearTopics.AheadTransitive | routes/year.js:196-208 | the sort comparator's "comes first" is transitive |
| YearTopics.AheadMeansComparator | routes/year.js:196-208 | "comes first" means a larger `absFractionDelta`, or an equal one and a larger `maxCount`, comparing the real quotients |
| YearTopics.Ahead | routes/year.js:195-209 | the comparator's "comes first", cross-multiplied; its meaning and transitivity are stated by `AheadMeansComparator` and `AheadTransitive` |
| YearTopics.InsertByChangePermutes | routes/year.js:195-209 | inserting adds exactly the new topic |
| YearTopics.InsertByChangeRanked | routes/year.js:195-209 | inserting into a ranked list keeps it ranked |
| YearTopics.SortByChangePermutes | routes/year.js:195-209 | each category's sort is a permutation |
| YearTopics.SortByChange | routes/year.js:195-209 | the stable sort of a category as insertion sort; `SortByChangePermutes` and `SortByChangeRanked` state that it permutes and ranks |
| YearTopics.SortByChangeRanked | routes/year.js:195-209 | the sort leaves no topic after one the comparator puts behind it, and loses none |
| YearTopics.BucketMembers | routes/year.js:168-193 | a topic is in a category exactly when it is one of the taxonomy's listed topics and classifies there |
| YearTopics.BucketPeaks | routes/year.js:176 | every classified topic peaks at 20 or more |
| YearTopics.BucketsHold | routes/year.js:167-193 | the pushes leave each category holding its topics in name order |
| YearTopics.ClassifiedTopics | routes/year.js:161-226 | every taxonomy gets all five categories; a topic is in a category exactly when it is listed, peaks at 20 or more and classifies there; each category is ranked by change and keeps each such topic's multiplicity |
| YearTopics.Classified | routes/year.js:161-226 | the definition of the classification that `ClassifyComparedTopics` is proved to compute; its buckets are stated by `ClassifiedTopics` |
| YearTopics.BucketTopics | routes/year.js:167-193 | the name loop computes the specified buckets |
| YearTopics.SortCategories | routes/year.js:195-209 | each of the five categories is sorted by change |
| YearTopics.ClassifyTaxonomyTopics | routes/year.js:166-209 | one taxonomy's body computes its specified classification |
| YearTopics.ClassifyComparedTopics | routes/year.js:161-226 | the method computes the specified classification: the years, the five categories, the taxonomies, and the sorted buckets of each |
| YearTopics.PrepDisplayData | routes/year.js:257-278 | fails exactly when there is at least one category and a listed taxonomy has no classification (with no categories every taxonomy gets a row with no cells); otherwise echoes the years, taxonomies and categories, with one row per taxonomy in order and one cell per category in order, holding that category's items (absent when the category is missing) |
| YearTopics.DisplayClassified | routes/year.js:228-278 | displaying a classification never fails: each taxonomy's row has five cells, each holding that category's eligible topics, ranked by change |

## Left out

- Network access is not modelled: HTTP fetches, the response cache, the CAPI key and its
  redaction in error messages, `getCapi`, `getArticle` and the route handlers. So are the
  `directly` concurrency limiter and the promise plumbing. The search and the clock are
  oracles instead.
- `Date.now()` and the `dateNow` timestamp are not modelled. The paginator's clock is an
  oracle, and `stats.dateNow` and the constant `stats.description` are dropped from the
  correlation result.
- `calcFullDateRange`, `allFacets`, `allFacetsByYear`, `search`, `searchDeeper*` and `correlateDammit` are
  not modelled. They only wire the core to the network.
- `searchSapi` is not modelled. The paginator sees each page as the oracle's answer: its offset
  and page size echoed from the result context, the index count and the results.
- `Paginator.SearchSapiDeeper`: the echoed `maxResults` is an integer. If the search API echoed
  a string, JavaScript's `+` would concatenate.
- `SapiQuery.ConstructSapiQuery`: `resultContext` is read as a bag of query fields. The model
  does not capture passing a full search body, whose own nested `resultContext` would also be
  merged into the result.
- `Correlation.CorrelateMergedAnnotations`: the result leaves out the echo of `params` and
  `articles`, keeping only `correlations`.
- Strings are sequences of Unicode scalar values, compared by code point. JavaScript compares
  and sorts strings by UTF-16 code unit; the two orders differ for characters above U+FFFF,
  and the code-unit order is not modelled. `toLowerCase` is modelled only for ASCII letters
  (`Common.ToLower`).
- Numbers are integers: `maxResults`, `offset` and the year. A NaN, `undefined`, fractional
  or string value, which the source's range test lets through unclamped and renders as
  text such as "NaN", is not modelled; neither is `Number(req.params.year)` being NaN or
  fractional.
- Object key order is insertion order. JavaScript lists integer-like keys first, in numeric
  order; that case is not modelled.
- `Correlation.CorrelateGroupInArticles`: the concertina pass is modelled once, on the final
  tables. The source reruns it after every article and keeps only the last run's lists. The
  returned `uuidsGroupedByItem` therefore lacks the merged-name keys that the earlier
  per-article runs leave in the source's shared map.
- `Concertina.ConcertinaSortedList`: the thresholds are exact fractions. Floating-point
  rounding of `bubbleCount * 0.66` is not modelled.
- `YearTopics.Classify`: `fractionDelta` and `absFractionDelta` are compared exactly by
  cross-multiplying. Floating-point rounding of the quotient is not modelled.
- `YearTopics.CompareYearsTopics` requires at most two responses, as `counts` has two slots.
  The routes only ever pass two years.
- `YearTopics.CompareYearsEntry` does not state which `nameCsv` an entry keeps, which is that
  of its first occurrence.
- `YearTopics.GroupFacets` tags a copy of each element. The source sets `nameCsv` on the
  response's element objects in place; the aliasing is not modelled.
- `YearTopics.SortByChangeRanked` proves that each category is ranked and a permutation. It
  does not prove that ties keep their order, though the insertion sort is stable.
- The routes' `[year1, year2].sort()` is not modelled. It sorts the years as strings.
- The constant `description` and `comparisonParams` echoed by `classifyComparedTopics` are
  left out.
- `fetchSapiTopicSummary` is not modelled except for its facet grouping (`YearTopics.GroupFacets`).
  The search call is left out.
