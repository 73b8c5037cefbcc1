/** The query builder of the search engine: turns a loose option bag into the search-API
    request body (lib/searchAndContent.js, `rephraseEntityForQueryString` and
    `constructSAPIQuery`). */
module SapiQuery {
  import opened Common

  // ---------------------------------------------------------------------------
  // Constraint rewriting: the pattern /^([a-z]+(?:Id)?):(.+)$/

  predicate IsLowerAscii(c: char) {
    'a' <= c <= 'z'
  }

  /** `[a-z]+` */
  predicate IsLowerWord(s: string) {
    |s| > 0 && forall i :: 0 <= i < |s| ==> IsLowerAscii(s[i])
  }

  /** `[a-z]+(?:Id)?`: a basic ontology name such as `people`, or its id form `peopleId`. */
  predicate IsOntologyKey(f: string) {
    IsLowerWord(f) || (|f| > 2 && f[|f| - 2..] == "Id" && IsLowerWord(f[..|f| - 2]))
  }

  /** The characters `.` does not match in a JavaScript regular expression without the `s` flag. */
  predicate IsLineTerminator(c: char) {
    c == '\n' || c == '\r' || c == '\U{2028}' || c == '\U{2029}'
  }

  /** `.+` */
  predicate IsRestOfLine(r: string) {
    |r| > 0 && forall i :: 0 <= i < |r| ==> !IsLineTerminator(r[i])
  }

  /** The pattern matches `item` with the two groups `field` and `rest`. */
  predicate EntityMatch(item: string, field: string, rest: string) {
    item == field + ":" + rest && IsOntologyKey(field) && IsRestOfLine(rest)
  }

  lemma OntologyKeyHasNoColon(f: string)
    requires IsOntologyKey(f)
    ensures ':' !in f
  {
    if !IsLowerWord(f) {
      assert f == f[..|f| - 2] + "Id";
    }
  }

  /** `rephraseEntityForQueryString`: the pattern is anchored and the field group can hold no
      ':', so the only split to try is at the first ':'. */
  function RephraseEntity(item: string): string {
    match IndexOf(item, ':')
    case None => item
    case Some(p) =>
      var field, rest := item[..p], item[p + 1..];
      if IsOntologyKey(field) && IsRestOfLine(rest) then field + ":\"" + rest + "\"" else item
  }

  /** A constraint the pattern matches is rewritten to `field:"rest"`. */
  lemma RephraseMatching(item: string, field: string, rest: string)
    requires EntityMatch(item, field, rest)
    ensures RephraseEntity(item) == field + ":\"" + rest + "\""
  {
    OntologyKeyHasNoColon(field);
    assert item[..|field|] == field && item[|field|] == ':';
    assert item[|field| + 1..] == rest;
    IndexOfAt(item, ':', |field|);
  }

  /** Any other constraint, such as a date range on `lastPublishDateTime`, is left as it is. */
  lemma RephraseNonMatching(item: string)
    requires forall p :: 0 <= p < |item| ==> !EntityMatch(item, item[..p], item[p + 1..])
    ensures RephraseEntity(item) == item
  {
    match IndexOf(item, ':')
    case None =>
    case Some(p) =>
      assert item == item[..p] + ":" + item[p + 1..];
      assert !EntityMatch(item, item[..p], item[p + 1..]);
  }

  lemma RephrasePeopleExample(item: string)
    requires item == "people:Donald Trump"
    ensures RephraseEntity(item) == "people:\"Donald Trump\""
  {
    var field, rest := "people", "Donald Trump";
    assert item == field + ":" + rest;
    assert IsLowerWord(field);
    assert IsRestOfLine(rest);
    assert field + ":\"" + rest + "\"" == "people:\"Donald Trump\"";
    RephraseMatching(item, field, rest);
  }

  lemma RephraseDateRangeExample(item: string)
    requires item == "lastPublishDateTime:>2020-01-01"
    ensures RephraseEntity(item) == item
  {
    var field := "lastPublishDateTime";
    assert !IsOntologyKey(field) by {
      assert !IsLowerAscii(field[4]);
      assert field[17..] == "me";
    }
    assert item[..19] == field && item[19] == ':';
    assert ':' !in field;
    IndexOfAt(item, ':', 19);
  }

  // ---------------------------------------------------------------------------
  // The request body

  datatype FacetSpec = FacetSpec(names: seq<string>, maxElements: int)

  /** The query fields a caller may set; each is absent unless the caller supplies it. */
  datatype QueryFields = QueryFields(
    queryString: Option<string>,
    maxResults: Option<int>,
    offset: Option<int>,
    aspects: Option<seq<string>>,
    constraints: Option<seq<string>>,
    facets: Option<FacetSpec>)

  /** The caller's parameter bag: its own query fields, and optionally a `resultContext` object
      holding more of them, as in a search-API body passed in verbatim. */
  datatype SearchParams = SearchParams(fields: QueryFields, resultContext: Option<QueryFields>)

  /** The query fields after the defaults, `resultContext` and the caller's own fields are merged. */
  datatype Combined = Combined(
    queryString: string,
    maxResults: int,
    offset: int,
    aspects: seq<string>,
    constraints: seq<string>,
    facets: FacetSpec)

  /** The search body posted to the search API. Its `maxResults` and `offset` are strings, as the
      source renders them through template literals. */
  datatype SapiBody = SapiBody(
    queryString: string,
    curations: seq<string>,
    maxResults: string,
    offset: string,
    aspects: seq<string>,
    sortOrder: string,
    sortField: string,
    facets: FacetSpec)

  const MaxMaxResults := 100
  const DefaultMaxResults := 10
  const DefaultAspects: seq<string> := ["title", "lifecycle", "location", "summary", "metadata"]
  const DefaultFacets := FacetSpec(["people", "organisations", "topics"], -1)

  /** `Object.assign({}, defaults, resultContext, params)`: the caller's fields override
      `resultContext`, which overrides the defaults. */
  function Combine(p: SearchParams): (c: Combined)
    ensures p.fields.maxResults.Some? ==> c.maxResults == p.fields.maxResults.value
    ensures (p.fields.maxResults.None? && p.resultContext.Some? && p.resultContext.value.maxResults.Some?)
            ==> c.maxResults == p.resultContext.value.maxResults.value
    ensures (p.fields.maxResults.None? && (p.resultContext.None? || p.resultContext.value.maxResults.None?))
            ==> c.maxResults == DefaultMaxResults
    ensures p.fields.queryString.Some? ==> c.queryString == p.fields.queryString.value
    ensures (p.fields.queryString.None? && (p.resultContext.None? || p.resultContext.value.queryString.None?))
            ==> c.queryString == ""
    ensures p.fields.offset.Some? ==> c.offset == p.fields.offset.value
    ensures (p.fields.offset.None? && (p.resultContext.None? || p.resultContext.value.offset.None?))
            ==> c.offset == 0
    ensures p.fields.constraints.Some? ==> c.constraints == p.fields.constraints.value
    ensures (p.fields.constraints.None? && (p.resultContext.None? || p.resultContext.value.constraints.None?))
            ==> c.constraints == []
    ensures (p.fields.queryString.None? && p.resultContext.Some? && p.resultContext.value.queryString.Some?)
            ==> c.queryString == p.resultContext.value.queryString.value
    ensures (p.fields.offset.None? && p.resultContext.Some? && p.resultContext.value.offset.Some?)
            ==> c.offset == p.resultContext.value.offset.value
    ensures (p.fields.constraints.None? && p.resultContext.Some? && p.resultContext.value.constraints.Some?)
            ==> c.constraints == p.resultContext.value.constraints.value
    ensures p.fields.aspects.Some? ==> c.aspects == p.fields.aspects.value
    ensures (p.fields.aspects.None? && p.resultContext.Some? && p.resultContext.value.aspects.Some?)
            ==> c.aspects == p.resultContext.value.aspects.value
    ensures (p.fields.aspects.None? && (p.resultContext.None? || p.resultContext.value.aspects.None?))
            ==> c.aspects == DefaultAspects
    ensures p.fields.facets.Some? ==> c.facets == p.fields.facets.value
    ensures (p.fields.facets.None? && p.resultContext.Some? && p.resultContext.value.facets.Some?)
            ==> c.facets == p.resultContext.value.facets.value
    ensures (p.fields.facets.None? && (p.resultContext.None? || p.resultContext.value.facets.None?))
            ==> c.facets == DefaultFacets
  {
    var rc := p.resultContext.GetOr(QueryFields(None, None, None, None, None, None));
    var f := p.fields;
    Combined(
      Override(Override(Some(""), rc.queryString), f.queryString).value,
      Override(Override(Some(DefaultMaxResults), rc.maxResults), f.maxResults).value,
      Override(Override(Some(0), rc.offset), f.offset).value,
      Override(Override(Some(DefaultAspects), rc.aspects), f.aspects).value,
      Override(Override(Some([]), rc.constraints), f.constraints).value,
      Override(Override(Some(DefaultFacets), rc.facets), f.facets).value)
  }

  /** A `maxResults` above 100 or below 1 is replaced by 100 (not floored to 1). */
  function ClampMaxResults(n: int): (m: int)
    ensures 1 <= m <= MaxMaxResults
    ensures 1 <= n <= MaxMaxResults ==> m == n
    ensures (n < 1 || n > MaxMaxResults) ==> m == MaxMaxResults
  {
    if n > MaxMaxResults || n < 1 then MaxMaxResults else n
  }

  function RephraseAll(constraints: seq<string>): (r: seq<string>)
    ensures |r| == |constraints|
    ensures forall i :: 0 <= i < |r| ==> r[i] == RephraseEntity(constraints[i])
  {
    if |constraints| == 0 then [] else [RephraseEntity(constraints[0])] + RephraseAll(constraints[1..])
  }

  /** The query string: the free text alone without constraints, or the free text, " and ",
      and the rewritten constraints joined by " and ". */
  function FullQueryString(queryString: string, constraints: seq<string>): string {
    if |constraints| > 0 then queryString + " and " + Join(RephraseAll(constraints), " and ")
    else queryString
  }

  /** `constructSAPIQuery` */
  function ConstructSapiQuery(p: SearchParams): (q: SapiBody)
    ensures ParseInt(q.maxResults).Some?
    ensures 1 <= ParseInt(q.maxResults).value <= MaxMaxResults
    ensures ParseInt(q.maxResults).value == ClampMaxResults(Combine(p).maxResults)
    ensures ParseInt(q.offset) == Some(Combine(p).offset)
    ensures q.queryString == FullQueryString(Combine(p).queryString, Combine(p).constraints)
    ensures q.aspects == Combine(p).aspects && q.facets == Combine(p).facets
    ensures q.curations == ["ARTICLES", "BLOGS"] && q.sortOrder == "DESC" && q.sortField == "lastPublishDateTime"
  {
    var c := Combine(p);
    var m := ClampMaxResults(c.maxResults);
    IntToStringRoundTrip(m);
    IntToStringRoundTrip(c.offset);
    SapiBody(FullQueryString(c.queryString, c.constraints), ["ARTICLES", "BLOGS"],
             IntToString(m), IntToString(c.offset), c.aspects, "DESC", "lastPublishDateTime", c.facets)
  }

  /** Without constraints the caller's query string is sent exactly as given. */
  lemma NoConstraintsKeepsQueryString(p: SearchParams)
    requires Combine(p).constraints == []
    ensures ConstructSapiQuery(p).queryString == Combine(p).queryString
  {
  }

  /** Each constraint appears rewritten, between " and " separators, after the free text. */
  lemma {:induction false} JoinedConstraintsShape(queryString: string, constraints: seq<string>)
    requires |constraints| > 0
    ensures FullQueryString(queryString, constraints)
         == queryString + " and " + RephraseEntity(constraints[0])
            + (if |constraints| > 1 then " and " + Join(RephraseAll(constraints[1..]), " and ") else "")
  {
    var r := RephraseAll(constraints);
    assert r[1..] == RephraseAll(constraints[1..]);
  }
}
