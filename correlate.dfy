/** `correlateGroupInArticles` and `correlateMergedAnnotations` of lib/searchAndContent.js:
    fold a list of articles into tables over the facet keys of one group of their merged
    annotations (primary themes, abouts, mentions, or abouts and mentions): how many times
    each key occurs, which articles it occurs in, how often two distinct keys occur in the
    same article, and the keys ranked by count, overall and per taxonomy. Articles without
    any usable key are tallied apart. */
module Correlation {
  import opened Common
  import CapiMerge
  import opened Concertina

  /** The fields of an article the correlation reads. */
  datatype Article = Article(uuid: string, publishedDate: string, mergedAnnotations: CapiMerge.Massaged)

  /** What a group extractor returns: `[undefined]` (a primary theme that is not set) or a
      list of facet keys. */
  datatype Group = Undefined | Items(names: seq<string>)

  /** The four extractors of `groupFns`. */
  datatype GroupName = PrimaryThemes | Abouts | Mentions | AboutsAndMentions

  /** `groupFns.hasOwnProperty(name)`, with the extractor it names. */
  function GroupNamed(name: string): (r: Option<GroupName>)
    ensures r.Some? <==> name in ["primaryThemes", "abouts", "mentions", "aboutsAndMentions"]
  {
    if name == "primaryThemes" then Some(PrimaryThemes)
    else if name == "abouts" then Some(Abouts)
    else if name == "mentions" then Some(Mentions)
    else if name == "aboutsAndMentions" then Some(AboutsAndMentions)
    else None
  }

  function GroupOf(g: GroupName, a: Article): Group {
    var m := a.mergedAnnotations;
    match g
    case PrimaryThemes => if m.primaryTheme.Some? then Items([m.primaryTheme.value]) else Undefined
    case Abouts => Items(m.abouts)
    case Mentions => Items(m.mentions)
    case AboutsAndMentions => Items(m.abouts + m.mentions)
  }

  // ---------------------------------------------------------------------------
  // The ignore list

  /** `ignoreItemList.map(item => item.toLowerCase())` */
  function LowerAll(items: seq<string>): (r: seq<string>)
    ensures |r| == |items| && forall i :: 0 <= i < |items| ==> r[i] == ToLower(items[i])
  {
    seq(|items|, i requires 0 <= i < |items| => ToLower(items[i]))
  }

  /** `group.filter(item => !ignoreItemList.includes(item.toLowerCase()))` */
  function Keep(names: seq<string>, ignoreLower: seq<string>): seq<string>
    decreases |names|
  {
    if |names| == 0 then []
    else
      var rest := Keep(names[..|names| - 1], ignoreLower);
      if ToLower(names[|names| - 1]) in ignoreLower then rest else rest + [names[|names| - 1]]
  }

  /** Some entry of the ignore list equals `x` up to case. */
  predicate IgnoredBy(ignoreItemList: seq<string>, x: string) {
    exists j :: 0 <= j < |ignoreItemList| && ToLower(ignoreItemList[j]) == ToLower(x)
  }

  lemma LowerAllMatches(ignoreItemList: seq<string>, x: string)
    ensures ToLower(x) in LowerAll(ignoreItemList) <==> IgnoredBy(ignoreItemList, x)
  {
    var lower := LowerAll(ignoreItemList);
    if ToLower(x) in lower {
      var j :| 0 <= j < |lower| && lower[j] == ToLower(x);
      assert ToLower(ignoreItemList[j]) == ToLower(x);
    }
  }

  /** The filter keeps exactly the keys that equal no entry of the ignore list up to case,
      each as often as it occurs. */
  lemma {:induction false} KeepFacts(names: seq<string>, ignoreItemList: seq<string>, x: string)
    ensures multiset(Keep(names, LowerAll(ignoreItemList)))[x]
            == if IgnoredBy(ignoreItemList, x) then 0 else multiset(names)[x]
    decreases |names|
  {
    if |names| > 0 {
      var init, last := names[..|names| - 1], names[|names| - 1];
      KeepFacts(init, ignoreItemList, x);
      assert names == init + [last];
      LowerAllMatches(ignoreItemList, last);
      if last == x {
        LowerAllMatches(ignoreItemList, x);
      }
    }
  }

  /** The group after filtering; `[undefined]` is not filtered. */
  function Filtered(g: Group, ignoreLower: seq<string>): Group {
    match g
    case Undefined => Undefined
    case Items(names) => Items(Keep(names, ignoreLower))
  }

  /** An article counts unless its group is empty or `[undefined]`. */
  predicate Usable(g: Group) {
    g.Items? && |g.names| > 0
  }

  // ---------------------------------------------------------------------------
  // The tables

  /** What the fold works on for each article: its uuid and its filtered group. */
  datatype Entry = Entry(uuid: string, group: Group)

  function Entries(articles: seq<Article>, g: GroupName, ignoreLower: seq<string>): (r: seq<Entry>)
    ensures |r| == |articles|
    ensures forall i :: 0 <= i < |articles| ==> r[i] == Entry(articles[i].uuid, Filtered(GroupOf(g, articles[i]), ignoreLower))
  {
    seq(|articles|, i requires 0 <= i < |articles| => Entry(articles[i].uuid, Filtered(GroupOf(g, articles[i]), ignoreLower)))
  }

  /** The tables the fold updates: the tally of unusable articles, the keys of `counts` in
      insertion order, `counts`, `uuidsGroupedByItem` and `correlations`. */
  datatype Tally = Tally(
    undefinedCount: nat,
    undefinedUuids: seq<string>,
    keys: seq<string>,
    counts: map<string, nat>,
    uuids: map<string, seq<string>>,
    correlations: map<string, map<string, nat>>)

  const EmptyTally := Tally(0, [], [], map[], map[], map[])

  /** One key of an article: count it, and record the article's uuid under it. */
  function AddItem(t: Tally, item: string, uuid: string): Tally {
    t.(keys := if item in t.counts then t.keys else t.keys + [item],
       counts := t.counts[item := (if item in t.counts then t.counts[item] else 0) + 1],
       uuids := t.uuids[item := (if item in t.uuids then t.uuids[item] else []) + [uuid]])
  }

  /** `group.forEach(item => ...)` over the counts and the uuids. */
  function AddItems(t: Tally, names: seq<string>, uuid: string): Tally
    decreases |names|
  {
    if |names| == 0 then t else AddItem(AddItems(t, names[..|names| - 1], uuid), names[|names| - 1], uuid)
  }

  /** `correlations[a][b]`, or 0 when either level is missing. */
  function Get(c: map<string, map<string, nat>>, a: string, b: string): nat {
    if a in c && b in c[a] then c[a][b] else 0
  }

  /** `corrs[a][b] += 1`, creating `corrs[a]` and `corrs[a][b]` as needed. */
  function Bump(c: map<string, map<string, nat>>, a: string, b: string): map<string, map<string, nat>> {
    c[a := (if a in c then c[a] else map[])[b := Get(c, a, b) + 1]]
  }

  /** The inner `group.forEach(b => ...)` for one `a`. */
  function PairWith(c: map<string, map<string, nat>>, a: string, bs: seq<string>): map<string, map<string, nat>>
    decreases |bs|
  {
    if |bs| == 0 then c
    else
      var c' := PairWith(c, a, bs[..|bs| - 1]);
      if a != bs[|bs| - 1] then Bump(c', a, bs[|bs| - 1]) else c'
  }

  /** The outer `group.forEach(a => ...)`. */
  function PairAll(c: map<string, map<string, nat>>, firsts: seq<string>, group: seq<string>): map<string, map<string, nat>>
    decreases |firsts|
  {
    if |firsts| == 0 then c else PairWith(PairAll(c, firsts[..|firsts| - 1], group), firsts[|firsts| - 1], group)
  }

  /** One article of the `articles.forEach`. */
  function TallyStep(t: Tally, e: Entry): Tally {
    if !Usable(e.group) then
      t.(undefinedCount := t.undefinedCount + 1, undefinedUuids := t.undefinedUuids + [e.uuid])
    else
      AddItems(t, e.group.names, e.uuid).(correlations := PairAll(t.correlations, e.group.names, e.group.names))
  }

  function Tallied(entries: seq<Entry>): Tally
    decreases |entries|
  {
    if |entries| == 0 then EmptyTally else TallyStep(Tallied(entries[..|entries| - 1]), entries[|entries| - 1])
  }

  lemma TalliedSnoc(entries: seq<Entry>, i: nat)
    requires i < |entries|
    ensures Tallied(entries[..i + 1]) == TallyStep(Tallied(entries[..i]), entries[i])
  {
    assert entries[..i + 1][..i] == entries[..i];
  }

  // ---------------------------------------------------------------------------
  // Reference definitions of the tables

  /** The number of articles with a usable group. */
  function UsableCount(entries: seq<Entry>): nat
    decreases |entries|
  {
    if |entries| == 0 then 0
    else UsableCount(entries[..|entries| - 1]) + if Usable(entries[|entries| - 1].group) then 1 else 0
  }

  /** The uuids of the articles without a usable group, in order. */
  function UnusableUuids(entries: seq<Entry>): seq<string>
    decreases |entries|
  {
    if |entries| == 0 then []
    else UnusableUuids(entries[..|entries| - 1]) + if Usable(entries[|entries| - 1].group) then [] else [entries[|entries| - 1].uuid]
  }

  /** `n` copies of `x`. */
  function Repeat(x: string, n: nat): (r: seq<string>)
    ensures |r| == n
  {
    if n == 0 then [] else Repeat(x, n - 1) + [x]
  }

  /** Every usable article's uuid, once for each occurrence of `k` in its group, in order. */
  function UuidsWith(entries: seq<Entry>, k: string): seq<string>
    decreases |entries|
  {
    if |entries| == 0 then []
    else
      var e := entries[|entries| - 1];
      UuidsWith(entries[..|entries| - 1], k) + if Usable(e.group) then Repeat(e.uuid, multiset(e.group.names)[k]) else []
  }

  /** Over the usable articles, the number of ordered pairs of positions of one group that
      hold `a` and `b`. */
  function CoOccurrences(entries: seq<Entry>, a: string, b: string): nat
    decreases |entries|
  {
    if |entries| == 0 then 0
    else
      var e := entries[|entries| - 1];
      CoOccurrences(entries[..|entries| - 1], a, b)
      + if Usable(e.group) then multiset(e.group.names)[a] * multiset(e.group.names)[b] else 0
  }

  // ---------------------------------------------------------------------------
  // Counts and uuids

  /** `counts[k]`, or 0 for a key not seen yet. */
  function CountOf(t: Tally, k: string): nat {
    if k in t.counts then t.counts[k] else 0
  }

  /** `uuidsGroupedByItem[k]`, or `[]` for a key not seen yet. */
  function UuidsOf(t: Tally, k: string): seq<string> {
    if k in t.uuids then t.uuids[k] else []
  }

  /** The key list is `Object.keys(counts)`, and counts and uuid lists agree key by key. */
  ghost predicate KeysAgree(t: Tally) {
    && NoDuplicates(t.keys)
    && (forall k :: k in t.counts <==> k in t.keys)
    && (forall k :: k in t.uuids <==> k in t.counts)
    && (forall k :: k in t.counts ==> t.counts[k] == |t.uuids[k]| > 0)
  }

  lemma AddItemKeys(t: Tally, item: string, uuid: string)
    requires KeysAgree(t)
    ensures KeysAgree(AddItem(t, item, uuid))
  {
    if item !in t.counts {
      assert forall i :: 0 <= i < |t.keys| ==> t.keys[i] in t.counts;
    }
  }

  lemma AddItemUuids(t: Tally, item: string, uuid: string, k: string)
    ensures UuidsOf(AddItem(t, item, uuid), k) == UuidsOf(t, k) + if k == item then [uuid] else []
  {
    if k != item {
      assert UuidsOf(t, k) + [] == UuidsOf(t, k);
    }
  }

  /** Only the counts, the key list and the uuid lists change. */
  lemma {:induction false} AddItemsKeys(t: Tally, names: seq<string>, uuid: string)
    requires KeysAgree(t)
    ensures var t' := AddItems(t, names, uuid);
            && KeysAgree(t')
            && t'.undefinedCount == t.undefinedCount && t'.undefinedUuids == t.undefinedUuids
            && t'.correlations == t.correlations
    decreases |names|
  {
    if |names| > 0 {
      AddItemsKeys(t, names[..|names| - 1], uuid);
      AddItemKeys(AddItems(t, names[..|names| - 1], uuid), names[|names| - 1], uuid);
    }
  }

  /** One more item appends the uuid to the key's list exactly when the item is the key. */
  lemma RepeatStep(before: seq<string>, prev: seq<string>, next: seq<string>, uuid: string, n: nat, hit: bool)
    requires prev == before + Repeat(uuid, n)
    requires next == prev + if hit then [uuid] else []
    ensures next == before + Repeat(uuid, n + if hit then 1 else 0)
  {
    if hit {
      assert Repeat(uuid, n + 1) == Repeat(uuid, n) + [uuid];
    } else {
      assert prev + [] == prev;
    }
  }

  /** Every occurrence of a key in an article's group adds one copy of the article's uuid
      to the key's list (and, by `KeysAgree`, one to its count). */
  lemma {:induction false} AddItemsUuids(t: Tally, names: seq<string>, uuid: string, k: string)
    ensures UuidsOf(AddItems(t, names, uuid), k) == UuidsOf(t, k) + Repeat(uuid, multiset(names)[k])
    decreases |names|
  {
    if |names| == 0 {
      assert UuidsOf(t, k) + Repeat(uuid, 0) == UuidsOf(t, k);
    } else {
      var init, last := names[..|names| - 1], names[|names| - 1];
      var mid := AddItems(t, init, uuid);
      AddItemsUuids(t, init, uuid, k);
      AddItemUuids(mid, last, uuid, k);
      MultisetSnoc(names, k);
      RepeatStep(UuidsOf(t, k), UuidsOf(mid, k), UuidsOf(AddItems(t, names, uuid), k), uuid, multiset(init)[k], k == last);
    }
  }

  lemma {:induction false} TalliedKeys(entries: seq<Entry>)
    ensures KeysAgree(Tallied(entries))
    decreases |entries|
  {
    if |entries| > 0 {
      var init, e := entries[..|entries| - 1], entries[|entries| - 1];
      TalliedKeys(init);
      if Usable(e.group) {
        AddItemsKeys(Tallied(init), e.group.names, e.uuid);
      }
    }
  }

  lemma {:induction false} TalliedUuids(entries: seq<Entry>, k: string)
    ensures UuidsOf(Tallied(entries), k) == UuidsWith(entries, k)
    decreases |entries|
  {
    if |entries| > 0 {
      var init, e := entries[..|entries| - 1], entries[|entries| - 1];
      TalliedUuids(init, k);
      if Usable(e.group) {
        AddItemsUuids(Tallied(init), e.group.names, e.uuid, k);
      } else {
        assert UuidsWith(entries, k) == UuidsWith(init, k) + [];
      }
    }
  }

  /** The tally of unusable articles: their uuids in order, and with the usable ones they
      make up all the articles. */
  lemma {:induction false} TalliedUndefined(entries: seq<Entry>)
    ensures var t := Tallied(entries);
            && KeysAgree(t)
            && t.undefinedUuids == UnusableUuids(entries)
            && t.undefinedCount == |t.undefinedUuids|
            && t.undefinedCount + UsableCount(entries) == |entries|
    decreases |entries|
  {
    if |entries| > 0 {
      var init, e := entries[..|entries| - 1], entries[|entries| - 1];
      TalliedUndefined(init);
      if Usable(e.group) {
        AddItemsKeys(Tallied(init), e.group.names, e.uuid);
      }
    }
  }

  // ---------------------------------------------------------------------------
  // Co-occurrence

  /** No key is paired with itself, and every stored pair count is positive. */
  predicate PairsAgree(c: map<string, map<string, nat>>) {
    && (forall a :: a in c ==> a !in c[a])
    && (forall a, b :: a in c && b in c[a] ==> c[a][b] > 0)
  }

  lemma BumpAgree(c: map<string, map<string, nat>>, a: string, b: string)
    requires a != b && PairsAgree(c)
    ensures PairsAgree(Bump(c, a, b))
  {
  }

  lemma {:induction false} PairWithAgree(c: map<string, map<string, nat>>, a: string, bs: seq<string>)
    requires PairsAgree(c)
    ensures PairsAgree(PairWith(c, a, bs))
    decreases |bs|
  {
    if |bs| > 0 {
      PairWithAgree(c, a, bs[..|bs| - 1]);
      if a != bs[|bs| - 1] {
        BumpAgree(PairWith(c, a, bs[..|bs| - 1]), a, bs[|bs| - 1]);
      }
    }
  }

  lemma {:induction false} PairAllAgree(c: map<string, map<string, nat>>, firsts: seq<string>, group: seq<string>)
    requires PairsAgree(c)
    ensures PairsAgree(PairAll(c, firsts, group))
    decreases |firsts|
  {
    if |firsts| > 0 {
      PairAllAgree(c, firsts[..|firsts| - 1], group);
      PairWithAgree(PairAll(c, firsts[..|firsts| - 1], group), firsts[|firsts| - 1], group);
    }
  }

  /** The inner loop adds, for `a` and each other key `y`, the occurrences of `y`. */
  lemma {:induction false} PairWithGet(c: map<string, map<string, nat>>, a: string, bs: seq<string>, x: string, y: string)
    ensures Get(PairWith(c, a, bs), x, y) == Get(c, x, y) + if x == a && y != a then multiset(bs)[y] else 0
    decreases |bs|
  {
    if |bs| > 0 {
      var init, last := bs[..|bs| - 1], bs[|bs| - 1];
      assert bs == init + [last];
      PairWithGet(c, a, init, x, y);
    }
  }

  /** Summed over the outer loop's keys: the occurrences of `y` in the group, for each
      occurrence of `x`. */
  function Hits(firsts: seq<string>, group: seq<string>, x: string, y: string): nat
    decreases |firsts|
  {
    if |firsts| == 0 then 0
    else Hits(firsts[..|firsts| - 1], group, x, y) + if firsts[|firsts| - 1] == x then multiset(group)[y] else 0
  }

  lemma MulSucc(m: nat, n: nat)
    ensures (m + 1) * n == m * n + n
  {
  }

  lemma {:induction false} HitsIsProduct(firsts: seq<string>, group: seq<string>, x: string, y: string)
    ensures Hits(firsts, group, x, y) == multiset(firsts)[x] * multiset(group)[y]
    decreases |firsts|
  {
    if |firsts| > 0 {
      var init, last := firsts[..|firsts| - 1], firsts[|firsts| - 1];
      assert firsts == init + [last];
      HitsIsProduct(init, group, x, y);
      var m, n := multiset(init)[x], multiset(group)[y];
      if last == x {
        assert multiset(firsts)[x] == m + 1;
        MulSucc(m, n);
      } else {
        assert multiset(firsts)[x] == m;
      }
    }
  }

  /** The nested loops add, for every ordered pair of distinct keys, one for each pair of
      positions holding them. */
  lemma {:induction false} PairAllGet(c: map<string, map<string, nat>>, firsts: seq<string>, group: seq<string>, x: string, y: string)
    ensures Get(PairAll(c, firsts, group), x, y) == Get(c, x, y) + if x != y then Hits(firsts, group, x, y) else 0
    decreases |firsts|
  {
    if |firsts| > 0 {
      var init, last := firsts[..|firsts| - 1], firsts[|firsts| - 1];
      PairAllGet(c, init, group, x, y);
      PairWithGet(PairAll(c, init, group), last, group, x, y);
    }
  }

  lemma {:induction false} TalliedPairsAgree(entries: seq<Entry>)
    ensures PairsAgree(Tallied(entries).correlations)
    decreases |entries|
  {
    if |entries| > 0 {
      var init, e := entries[..|entries| - 1], entries[|entries| - 1];
      TalliedPairsAgree(init);
      if Usable(e.group) {
        PairAllAgree(Tallied(init).correlations, e.group.names, e.group.names);
      }
    }
  }

  lemma {:induction false} TalliedPairs(entries: seq<Entry>, a: string, b: string)
    requires a != b
    ensures Get(Tallied(entries).correlations, a, b) == CoOccurrences(entries, a, b)
    decreases |entries|
  {
    if |entries| > 0 {
      var init, e := entries[..|entries| - 1], entries[|entries| - 1];
      TalliedPairs(init, a, b);
      if Usable(e.group) {
        PairAllGet(Tallied(init).correlations, e.group.names, e.group.names, a, b);
        HitsIsProduct(e.group.names, e.group.names, a, b);
      }
    }
  }

  lemma {:induction false} CoOccurrencesSymmetric(entries: seq<Entry>, a: string, b: string)
    ensures CoOccurrences(entries, a, b) == CoOccurrences(entries, b, a)
    decreases |entries|
  {
    if |entries| > 0 {
      CoOccurrencesSymmetric(entries[..|entries| - 1], a, b);
    }
  }

  // ---------------------------------------------------------------------------
  // The ranked lists

  /** `Object.keys(counts).map(name => ({name, count: counts[name]}))` */
  function RankedOf(keys: seq<string>, counts: map<string, nat>): (r: seq<Ranked>)
    requires forall i :: 0 <= i < |keys| ==> keys[i] in counts
    ensures |r| == |keys|
    ensures forall i :: 0 <= i < |keys| ==> r[i] == Ranked(keys[i], counts[keys[i]], None)
  {
    seq(|keys|, i requires 0 <= i < |keys| => Ranked(keys[i], counts[keys[i]], None))
  }

  /** `name.split(':')[0]` */
  function TaxonomyOf(r: Ranked): string {
    BeforeFirst(r.name, ':')
  }

  function TaxonomiesOf(s: seq<Ranked>): (r: seq<string>)
    ensures |r| == |s| && forall i :: 0 <= i < |s| ==> r[i] == TaxonomyOf(s[i])
  {
    seq(|s|, i requires 0 <= i < |s| => TaxonomyOf(s[i]))
  }

  /** The entries of one taxonomy, in list order. */
  function OfTaxonomy(s: seq<Ranked>, t: string): seq<Ranked>
    decreases |s|
  {
    if |s| == 0 then []
    else OfTaxonomy(s[..|s| - 1], t) + if TaxonomyOf(s[|s| - 1]) == t then [s[|s| - 1]] else []
  }

  /** The `sortedByCount.forEach` building `sortedByCountGroupedByTaxonomy`: the taxonomies
      in order of first appearance (the object's key order), and each one's entries. */
  function GroupByTaxonomy(s: seq<Ranked>): (seq<string>, map<string, seq<Ranked>>)
    decreases |s|
  {
    if |s| == 0 then ([], map[])
    else
      var (ts, m) := GroupByTaxonomy(s[..|s| - 1]);
      var r, t := s[|s| - 1], TaxonomyOf(s[|s| - 1]);
      if t in m then (ts, m[t := m[t] + [r]]) else (ts + [t], m[t := [r]])
  }

  /** The taxonomy keys are the distinct taxonomies in order of first appearance. */
  lemma {:induction false} GroupByTaxonomyKeys(s: seq<Ranked>)
    ensures GroupByTaxonomy(s).0 == Dedupe(TaxonomiesOf(s))
    ensures forall t :: t in GroupByTaxonomy(s).1 <==> t in GroupByTaxonomy(s).0
    decreases |s|
  {
    if |s| > 0 {
      var init := s[..|s| - 1];
      GroupByTaxonomyKeys(init);
      assert TaxonomiesOf(s)[..|s| - 1] == TaxonomiesOf(init);
    }
  }

  /** Each taxonomy holds exactly its entries, in list order. */
  lemma {:induction false} GroupByTaxonomyValues(s: seq<Ranked>, t: string)
    ensures t in GroupByTaxonomy(s).1 ==> GroupByTaxonomy(s).1[t] == OfTaxonomy(s, t)
    ensures t !in GroupByTaxonomy(s).1 ==> OfTaxonomy(s, t) == []
    decreases |s|
  {
    if |s| > 0 {
      GroupByTaxonomyValues(s[..|s| - 1], t);
    }
  }

  /** A taxonomy's entries are entries of the list, of that taxonomy ... */
  lemma {:induction false} OfTaxonomyMembers(s: seq<Ranked>, t: string)
    ensures forall i :: 0 <= i < |OfTaxonomy(s, t)| ==> OfTaxonomy(s, t)[i] in s && TaxonomyOf(OfTaxonomy(s, t)[i]) == t
    decreases |s|
  {
    if |s| > 0 {
      var init := s[..|s| - 1];
      OfTaxonomyMembers(init, t);
      var o := OfTaxonomy(init, t);
      assert forall i :: 0 <= i < |o| ==> o[i] in init ==> o[i] in s;
    }
  }

  /** ... in list order, so a list ranked by count stays ranked. */
  lemma {:induction false} OfTaxonomySorted(s: seq<Ranked>, t: string)
    requires SortedByCount(s)
    ensures SortedByCount(OfTaxonomy(s, t))
    decreases |s|
  {
    if |s| > 0 {
      var init, last := s[..|s| - 1], s[|s| - 1];
      assert SortedByCount(init);
      OfTaxonomySorted(init, t);
      OfTaxonomyMembers(init, t);
      var o := OfTaxonomy(init, t);
      forall i | 0 <= i < |o| ensures o[i].count >= last.count {
        var j :| 0 <= j < |init| && init[j] == o[i];
      }
    }
  }

  /** The method form of the `sortedByCount.forEach`. */
  method GroupSortedByTaxonomy(s: seq<Ranked>) returns (taxonomies: seq<string>, grouped: map<string, seq<Ranked>>)
    ensures (taxonomies, grouped) == GroupByTaxonomy(s)
  {
    taxonomies, grouped := [], map[];
    for i := 0 to |s|
      invariant (taxonomies, grouped) == GroupByTaxonomy(s[..i])
    {
      assert s[..i + 1][..i] == s[..i] && s[..i + 1][i] == s[i];
      var taxonomy := TaxonomyOf(s[i]);
      ghost var before := grouped;
      if taxonomy !in grouped {
        grouped := grouped[taxonomy := []];
        taxonomies := taxonomies + [taxonomy];
      }
      grouped := grouped[taxonomy := grouped[taxonomy] + [s[i]]];
      assert taxonomy !in before ==> grouped == before[taxonomy := [s[i]]] by {
        assert [] + [s[i]] == [s[i]];
      }
    }
    assert s[..|s|] == s;
  }

  // ---------------------------------------------------------------------------
  // `Object.keys(counts).sort()`: the default sort, by character codes

  predicate StrSorted(s: seq<string>) {
    forall i, j :: 0 <= i < j < |s| ==> !StrLess(s[j], s[i])
  }

  function InsertString(s: seq<string>, x: string): seq<string>
    decreases |s|
  {
    if |s| == 0 || !StrLess(s[0], x) then [x] + s else [s[0]] + InsertString(s[1..], x)
  }

  function SortStrings(s: seq<string>): seq<string>
    decreases |s|
  {
    if |s| == 0 then [] else InsertString(SortStrings(s[..|s| - 1]), s[|s| - 1])
  }

  lemma {:induction false} InsertStringSorted(s: seq<string>, x: string)
    requires StrSorted(s)
    ensures StrSorted(InsertString(s, x))
    ensures |InsertString(s, x)| == |s| + 1
    ensures InsertString(s, x)[0] == x || (|s| > 0 && InsertString(s, x)[0] == s[0])
    decreases |s|
  {
    if |s| == 0 || !StrLess(s[0], x) {
      var r := [x] + s;
      forall i, j | 0 <= i < j < |r| ensures !StrLess(r[j], r[i]) {
        if i == 0 {
          if j > 1 { StrNotLessTransitive(x, s[0], s[j - 1]); }
        }
      }
    } else {
      InsertStringSorted(s[1..], x);
      var r := InsertString(s[1..], x);
      StrLessAsymmetric(s[0], x);
      forall j | 0 <= j < |r| ensures !StrLess(r[j], s[0]) {
        if r[0] != x { assert r[0] == s[1]; }
        if j > 0 { StrNotLessTransitive(s[0], r[0], r[j]); }
      }
      assert InsertString(s, x) == [s[0]] + r;
    }
  }

  lemma {:induction false} InsertStringPermutes(s: seq<string>, x: string)
    ensures multiset(InsertString(s, x)) == multiset(s) + multiset{x}
    decreases |s|
  {
    if |s| > 0 && StrLess(s[0], x) {
      InsertStringPermutes(s[1..], x);
      assert s == [s[0]] + s[1..];
    }
  }

  /** The sorted keys are in order ... */
  lemma {:induction false} SortStringsSorted(s: seq<string>)
    ensures StrSorted(SortStrings(s))
    decreases |s|
  {
    if |s| > 0 {
      SortStringsSorted(s[..|s| - 1]);
      InsertStringSorted(SortStrings(s[..|s| - 1]), s[|s| - 1]);
    }
  }

  /** ... and are the same keys. */
  lemma {:induction false} SortStringsPermutes(s: seq<string>)
    ensures multiset(SortStrings(s)) == multiset(s)
    decreases |s|
  {
    if |s| > 0 {
      SortStringsPermutes(s[..|s| - 1]);
      InsertStringPermutes(SortStrings(s[..|s| - 1]), s[|s| - 1]);
      assert s == s[..|s| - 1] + [s[|s| - 1]];
    }
  }

  // ---------------------------------------------------------------------------
  // Publication dates

  /** The running `(d < earliest) ? d : earliest`, starting from the first date. */
  function Earliest(ds: seq<string>): string
    requires |ds| > 0
    decreases |ds|
  {
    if |ds| == 1 then ds[0]
    else
      var e := Earliest(ds[..|ds| - 1]);
      if StrLess(ds[|ds| - 1], e) then ds[|ds| - 1] else e
  }

  /** The running `(d > latest) ? d : latest`, starting from the first date. */
  function Latest(ds: seq<string>): string
    requires |ds| > 0
    decreases |ds|
  {
    if |ds| == 1 then ds[0]
    else
      var l := Latest(ds[..|ds| - 1]);
      if StrLess(l, ds[|ds| - 1]) then ds[|ds| - 1] else l
  }

  lemma {:induction false} EarliestIsLeast(ds: seq<string>)
    requires |ds| > 0
    ensures Earliest(ds) in ds
    ensures forall i :: 0 <= i < |ds| ==> !StrLess(ds[i], Earliest(ds))
    decreases |ds|
  {
    if |ds| == 1 {
      StrLessIrreflexive(ds[0]);
    } else {
      var init, last := ds[..|ds| - 1], ds[|ds| - 1];
      assert ds == init + [last];
      EarliestIsLeast(init);
      var e := Earliest(init);
      assert Earliest(ds) == if StrLess(last, e) then last else e;
      forall i | 0 <= i < |ds| ensures !StrLess(ds[i], Earliest(ds)) {
        if i == |ds| - 1 {
          StrLessIrreflexive(last);
          if !StrLess(last, e) { assert Earliest(ds) == e; }
        } else {
          assert ds[i] == init[i];
          if StrLess(last, e) && StrLess(ds[i], last) { StrLessTransitive(ds[i], last, e); }
        }
      }
    }
  }

  lemma {:induction false} LatestIsGreatest(ds: seq<string>)
    requires |ds| > 0
    ensures Latest(ds) in ds
    ensures forall i :: 0 <= i < |ds| ==> !StrLess(Latest(ds), ds[i])
    decreases |ds|
  {
    if |ds| == 1 {
      StrLessIrreflexive(ds[0]);
    } else {
      var init, last := ds[..|ds| - 1], ds[|ds| - 1];
      assert ds == init + [last];
      LatestIsGreatest(init);
      var l := Latest(init);
      assert Latest(ds) == if StrLess(l, last) then last else l;
      forall i | 0 <= i < |ds| ensures !StrLess(Latest(ds), ds[i]) {
        if i == |ds| - 1 {
          StrLessIrreflexive(last);
        } else {
          assert ds[i] == init[i];
          if StrLess(l, last) && StrLess(last, ds[i]) { StrLessTransitive(l, last, ds[i]); }
        }
      }
    }
  }

  /** One more date in the running minimum and maximum; the first date compares with itself. */
  lemma RangeStep(ds: seq<string>, i: nat)
    requires i < |ds|
    ensures var e := Earliest(ds[..if i == 0 then 1 else i]);
            Earliest(ds[..i + 1]) == if StrLess(ds[i], e) then ds[i] else e
    ensures var l := Latest(ds[..if i == 0 then 1 else i]);
            Latest(ds[..i + 1]) == if StrLess(l, ds[i]) then ds[i] else l
  {
    if i == 0 {
      StrLessIrreflexive(ds[0]);
    } else {
      assert ds[..i + 1][..i] == ds[..i];
    }
  }

  function Dates(articles: seq<Article>): (r: seq<string>)
    ensures |r| == |articles| && forall i :: 0 <= i < |articles| ==> r[i] == articles[i].publishedDate
  {
    seq(|articles|, i requires 0 <= i < |articles| => articles[i].publishedDate)
  }

  function PubdateRange(articles: seq<Article>): (Option<string>, Option<string>) {
    if |articles| == 0 then (None, None)
    else (Some(Earliest(Dates(articles))), Some(Latest(Dates(articles))))
  }

  // ---------------------------------------------------------------------------
  // `correlateGroupInArticles`

  /** The caller's parameters this part reads; each one absent unless given. */
  datatype Params = Params(
    genres: Option<seq<string>>,
    groups: Option<seq<string>>,
    ignoreItemList: Option<seq<string>>,
    concertinaOverlapThreshold: Option<Ratio>)

  /** The object `correlateGroupInArticles` returns (without `stats.dateNow` and the
      constant `stats.description`). `concertinaedSortedLists` is absent when no article
      had a usable group. */
  datatype Correlations = Correlations(
    numArticles: nat,
    undefinedCount: nat,
    undefinedUuids: seq<string>,
    pubdateEarliest: Option<string>,
    pubdateLatest: Option<string>,
    sortedByCount: seq<Ranked>,
    counts: map<string, nat>,
    taxonomies: seq<string>,
    sortedByCountGroupedByTaxonomy: map<string, seq<Ranked>>,
    items: seq<string>,
    correlations: map<string, map<string, nat>>,
    uuidsGroupedByItem: map<string, seq<string>>,
    concertinaedSortedLists: Option<ConcertinaedLists>)

  /** The ranked list and its taxonomy groups name only keys of the uuid table. */
  lemma RankingsNamed(t: Tally)
    requires KeysAgree(t)
    ensures var ranked := SortByCount(RankedOf(t.keys, t.counts));
            && AllNamed(ranked, t.uuids)
            && GroupsNamed(GroupByTaxonomy(ranked).0, GroupByTaxonomy(ranked).1, t.uuids)
  {
    var plain := RankedOf(t.keys, t.counts);
    var ranked := SortByCount(plain);
    SortByCountPermutes(plain);
    forall i | 0 <= i < |ranked| ensures ranked[i].name in t.uuids {
      assert ranked[i] in multiset(plain);
      var j :| 0 <= j < |plain| && plain[j] == ranked[i];
    }
    var (ts, m) := GroupByTaxonomy(ranked);
    GroupByTaxonomyKeys(ranked);
    forall j | 0 <= j < |ts| ensures ts[j] in m && AllNamed(m[ts[j]], t.uuids) {
      GroupByTaxonomyValues(ranked, ts[j]);
      OfTaxonomyMembers(ranked, ts[j]);
    }
  }

  /** The result object built from the final tables. */
  function Tables(t: Tally, articles: seq<Article>, threshold: Ratio): Correlations
    requires KeysAgree(t)
  {
    RankingsNamed(t);
    var ranked := SortByCount(RankedOf(t.keys, t.counts));
    var (taxonomies, grouped) := GroupByTaxonomy(ranked);
    var (lists, uuids) :=
      if |t.keys| == 0 then (None, t.uuids)
      else
        var (l, u) := ConcertinaLists(ranked, taxonomies, grouped, t.uuids, threshold);
        (Some(l), u);
    var (earliest, latest) := PubdateRange(articles);
    Correlations(|articles|, t.undefinedCount, t.undefinedUuids, earliest, latest, ranked, t.counts,
                 taxonomies, grouped, SortStrings(t.keys), t.correlations, uuids, lists)
  }

  /** The articles as the fold sees them, with the caller's ignore list (default none). */
  function EntriesFor(g: GroupName, articles: seq<Article>, params: Params): seq<Entry> {
    Entries(articles, g, LowerAll(params.ignoreItemList.GetOr([])))
  }

  /** `Object.keys(counts)` after the fold: the keys in order of first occurrence. */
  function KeyOrder(g: GroupName, articles: seq<Article>, params: Params): seq<string> {
    Tallied(EntriesFor(g, articles, params)).keys
  }

  /** The whole of `correlateGroupInArticles(fn, articles, params)`, with the concertina
      pass run once on the final tables. */
  function Correlate(g: GroupName, articles: seq<Article>, params: Params): Correlations {
    var entries := EntriesFor(g, articles, params);
    TalliedKeys(entries);
    Tables(Tallied(entries), articles, params.concertinaOverlapThreshold.GetOr(DefaultOverlapThreshold))
  }

  /** The `group.forEach` over the counts and the uuid lists. */
  method CountGroup(t: Tally, names: seq<string>, uuid: string) returns (t': Tally)
    ensures t' == AddItems(t, names, uuid)
  {
    t' := t;
    for j := 0 to |names|
      invariant t' == AddItems(t, names[..j], uuid)
    {
      assert names[..j + 1][..j] == names[..j] && names[..j + 1][j] == names[j];
      var item := names[j];
      var counts, keys, uuids := t'.counts, t'.keys, t'.uuids;
      if item !in counts {
        counts := counts[item := 0];
        keys := keys + [item];
      }
      counts := counts[item := counts[item] + 1];
      if item !in uuids {
        uuids := uuids[item := []];
      }
      uuids := uuids[item := uuids[item] + [uuid]];
      assert item !in t'.uuids ==> uuids == t'.uuids[item := [uuid]] by {
        assert [] + [uuid] == [uuid];
      }
      t' := t'.(keys := keys, counts := counts, uuids := uuids);
    }
    assert names[..|names|] == names;
  }

  /** `if (a !== b) { ...; corrs[a][b] += 1; }` */
  method BumpPair(c: map<string, map<string, nat>>, a: string, b: string) returns (c': map<string, map<string, nat>>)
    ensures c' == if a != b then Bump(c, a, b) else c
  {
    c' := c;
    if a != b {
      if a !in c' {
        c' := c'[a := map[]];
      }
      var row := c'[a];
      ghost var row0 := row;
      if b !in row {
        row := row[b := 0];
      }
      row := row[b := row[b] + 1];
      assert row == row0[b := Get(c, a, b) + 1];
      assert c'[a := row] == c[a := row];
      c' := c'[a := row];
    }
  }

  /** The nested `group.forEach(a => group.forEach(b => ...))`. */
  method PairGroup(c: map<string, map<string, nat>>, group: seq<string>) returns (c': map<string, map<string, nat>>)
    ensures c' == PairAll(c, group, group)
  {
    c' := c;
    for i := 0 to |group|
      invariant c' == PairAll(c, group[..i], group)
    {
      assert group[..i + 1][..i] == group[..i] && group[..i + 1][i] == group[i];
      ghost var before := c';
      for j := 0 to |group|
        invariant c' == PairWith(before, group[i], group[..j])
      {
        assert group[..j + 1][..j] == group[..j] && group[..j + 1][j] == group[j];
        c' := BumpPair(c', group[i], group[j]);
      }
      assert group[..|group|] == group;
    }
    assert group[..|group|] == group;
  }

  /** The `articles.forEach`: the publication-date range and the tables. */
  method TallyArticles(g: GroupName, articles: seq<Article>, ignoreLower: seq<string>)
    returns (t: Tally, earliest: Option<string>, latest: Option<string>)
    ensures t == Tallied(Entries(articles, g, ignoreLower))
    ensures (earliest, latest) == PubdateRange(articles)
  {
    ghost var entries := Entries(articles, g, ignoreLower);
    ghost var dates := Dates(articles);
    t := EmptyTally;
    earliest, latest := None, None;
    if |articles| > 0 {
      earliest, latest := Some(articles[0].publishedDate), Some(articles[0].publishedDate);
    }
    for i := 0 to |articles|
      invariant t == Tallied(entries[..i])
      invariant |articles| > 0 ==> earliest == Some(Earliest(dates[..if i == 0 then 1 else i]))
      invariant |articles| > 0 ==> latest == Some(Latest(dates[..if i == 0 then 1 else i]))
      invariant |articles| == 0 ==> earliest == None && latest == None
    {
      var article := articles[i];
      earliest, latest := WidenRange(dates, i, earliest.value, latest.value, article.publishedDate);
      var group := Filtered(GroupOf(g, article), ignoreLower);
      TalliedSnoc(entries, i);
      t := TallyArticle(t, article.uuid, group);
    }
    assert entries[..|articles|] == entries;
    assert dates[..|articles|] == dates;
  }

  /** `pubdateEarliest = (d < pubdateEarliest) ? d : pubdateEarliest`, and the same for the
      latest date. */
  method WidenRange(ghost ds: seq<string>, ghost i: nat, earliest: string, latest: string, d: string)
    returns (earliest': Option<string>, latest': Option<string>)
    requires i < |ds| && d == ds[i]
    requires earliest == Earliest(ds[..if i == 0 then 1 else i]) && latest == Latest(ds[..if i == 0 then 1 else i])
    ensures earliest' == Some(Earliest(ds[..i + 1])) && latest' == Some(Latest(ds[..i + 1]))
  {
    RangeStep(ds, i);
    earliest' := if StrLess(d, earliest) then Some(d) else Some(earliest);
    latest' := if StrLess(latest, d) then Some(d) else Some(latest);
  }

  /** One article: tally it apart, or count its keys and pair them. */
  method TallyArticle(t: Tally, uuid: string, group: Group) returns (t': Tally)
    ensures t' == TallyStep(t, Entry(uuid, group))
  {
    if group.Undefined? || |group.names| == 0 {
      t' := t.(undefinedCount := t.undefinedCount + 1, undefinedUuids := t.undefinedUuids + [uuid]);
    } else {
      var counted := CountGroup(t, group.names, uuid);
      var paired := PairGroup(t.correlations, group.names);
      t' := counted.(correlations := paired);
    }
  }

  /** The lists recomputed from the tables after an article, and the concertina pass. */
  method BuildTables(t: Tally, articles: seq<Article>, earliest: Option<string>, latest: Option<string>, threshold: Ratio)
    returns (c: Correlations)
    requires KeysAgree(t) && (earliest, latest) == PubdateRange(articles)
    ensures c == Tables(t, articles, threshold)
  {
    RankingsNamed(t);
    var ranked := SortByCount(RankedOf(t.keys, t.counts));
    var taxonomies, grouped := GroupSortedByTaxonomy(ranked);
    var items := SortStrings(t.keys);
    var lists: Option<ConcertinaedLists> := None;
    var uuids := t.uuids;
    if |t.keys| > 0 {
      var l;
      l, uuids := ConcertinaSortedLists(ranked, taxonomies, grouped, t.uuids, threshold);
      lists := Some(l);
    }
    c := Correlations(|articles|, t.undefinedCount, t.undefinedUuids, earliest, latest, ranked, t.counts,
                      taxonomies, grouped, items, t.correlations, uuids, lists);
  }

  /** `correlateGroupInArticles(fnGetGroupFromArticle, articles, params)` */
  method CorrelateGroupInArticles(g: GroupName, articles: seq<Article>, params: Params) returns (c: Correlations)
    ensures c == Correlate(g, articles, params)
  {
    var ignoreLower := LowerAll(params.ignoreItemList.GetOr([]));
    var t, earliest, latest := TallyArticles(g, articles, ignoreLower);
    TalliedKeys(EntriesFor(g, articles, params));
    c := BuildTables(t, articles, earliest, latest, params.concertinaOverlapThreshold.GetOr(DefaultOverlapThreshold));
  }

  // ---------------------------------------------------------------------------
  // What the tables hold

  /** `undefinedCount` tallies exactly the articles without usable keys, whose uuids
      `undefinedUuids` lists in order; with the folded articles they make up `numArticles`. */
  lemma CorrelateUndefined(g: GroupName, articles: seq<Article>, params: Params)
    ensures var c := Correlate(g, articles, params);
            var entries := EntriesFor(g, articles, params);
            && c.numArticles == |articles|
            && c.undefinedUuids == UnusableUuids(entries)
            && c.undefinedCount == |c.undefinedUuids|
            && c.undefinedCount + UsableCount(entries) == c.numArticles
  {
    TalliedUndefined(EntriesFor(g, articles, params));
  }

  /** In the tables the fold builds, `counts[k]` is the length of `uuidsGroupedByItem[k]`,
      which lists the article of every occurrence of `k`, in order. */
  lemma CountsMatchUuids(entries: seq<Entry>, k: string)
    ensures var t := Tallied(entries);
            && (k in t.counts <==> k in t.uuids)
            && (k in t.counts <==> |UuidsWith(entries, k)| > 0)
            && (k in t.counts ==> t.counts[k] == |t.uuids[k]| && t.uuids[k] == UuidsWith(entries, k))
  {
    TalliedKeys(entries);
    TalliedUuids(entries, k);
  }

  /** `counts[k]` is the number of occurrences of `k` in the usable groups, and the key
      keeps an entry in `uuidsGroupedByItem` after the concertina pass. */
  lemma CorrelateCounts(g: GroupName, articles: seq<Article>, params: Params, k: string)
    ensures var c := Correlate(g, articles, params);
            var entries := EntriesFor(g, articles, params);
            && (k in c.counts <==> |UuidsWith(entries, k)| > 0)
            && (k in c.counts ==> c.counts[k] == |UuidsWith(entries, k)| && k in c.uuidsGroupedByItem)
  {
    CountsMatchUuids(EntriesFor(g, articles, params), k);
  }

  /** `correlations[a][b]` counts the ordered pairs of positions of one group holding the
      distinct keys `a` and `b`; so it is symmetric, positive where present, and no key is
      paired with itself. */
  lemma CorrelatePairs(g: GroupName, articles: seq<Article>, params: Params, a: string, b: string)
    ensures var c := Correlate(g, articles, params).correlations;
            var entries := EntriesFor(g, articles, params);
            && (a != b ==> Get(c, a, b) == CoOccurrences(entries, a, b))
            && (a in c ==> a !in c[a])
            && (a in c && b in c[a] ==> c[a][b] > 0 && b in c && a in c[b] && c[b][a] == c[a][b])
  {
    var entries := EntriesFor(g, articles, params);
    TalliedPairsAgree(entries);
    if a != b {
      TalliedPairs(entries, a, b);
      TalliedPairs(entries, b, a);
      CoOccurrencesSymmetric(entries, a, b);
    }
  }

  /** `sortedByCount` holds one entry per key with its count, in descending order of count;
      `items` holds the keys in character-code order. */
  lemma CorrelateRanking(g: GroupName, articles: seq<Article>, params: Params)
    ensures var c := Correlate(g, articles, params);
            var keys := KeyOrder(g, articles, params);
            && NoDuplicates(keys)
            && (forall k :: k in keys <==> k in c.counts)
            && SortedByCount(c.sortedByCount)
            && multiset(c.sortedByCount) == multiset(RankedOf(keys, c.counts))
            && StrSorted(c.items)
            && multiset(c.items) == multiset(keys)
  {
    var entries := EntriesFor(g, articles, params);
    TalliedKeys(entries);
    var t := Tallied(entries);
    SortByCountSorted(RankedOf(t.keys, t.counts));
    SortByCountPermutes(RankedOf(t.keys, t.counts));
    SortStringsSorted(t.keys);
    SortStringsPermutes(t.keys);
  }

  /** The taxonomy keys: the distinct text-before-`:` of the ranked keys, in order of first
      appearance ... */
  lemma CorrelateTaxonomyKeys(g: GroupName, articles: seq<Article>, params: Params)
    ensures var c := Correlate(g, articles, params);
            && c.taxonomies == Dedupe(TaxonomiesOf(c.sortedByCount))
            && (forall t :: t in c.sortedByCountGroupedByTaxonomy <==> t in c.taxonomies)
  {
    GroupByTaxonomyKeys(Correlate(g, articles, params).sortedByCount);
  }

  /** ... each holding its ranked entries in ranked order. */
  lemma CorrelateTaxonomyGroups(g: GroupName, articles: seq<Article>, params: Params, t: string)
    ensures var c := Correlate(g, articles, params);
            t in c.sortedByCountGroupedByTaxonomy ==>
              && c.sortedByCountGroupedByTaxonomy[t] == OfTaxonomy(c.sortedByCount, t)
              && SortedByCount(c.sortedByCountGroupedByTaxonomy[t])
  {
    var c := Correlate(g, articles, params);
    var entries := EntriesFor(g, articles, params);
    TalliedKeys(entries);
    var tally := Tallied(entries);
    SortByCountSorted(RankedOf(tally.keys, tally.counts));
    GroupByTaxonomyValues(c.sortedByCount, t);
    OfTaxonomySorted(c.sortedByCount, t);
  }

  /** The earliest and latest publication dates, by character-code order; absent with no
      articles. */
  lemma CorrelatePubdates(g: GroupName, articles: seq<Article>, params: Params)
    ensures var c := Correlate(g, articles, params);
            var ds := Dates(articles);
            && (|articles| == 0 ==> c.pubdateEarliest.None? && c.pubdateLatest.None?)
            && (|articles| > 0 ==>
                  && c.pubdateEarliest.Some? && c.pubdateEarliest.value in ds
                  && c.pubdateLatest.Some? && c.pubdateLatest.value in ds
                  && forall i :: 0 <= i < |ds| ==>
                       !StrLess(ds[i], c.pubdateEarliest.value) && !StrLess(c.pubdateLatest.value, ds[i]))
  {
    if |articles| > 0 {
      EarliestIsLeast(Dates(articles));
      LatestIsGreatest(Dates(articles));
    }
  }

  /** Some article has a usable group exactly when the fold has seen a key. */
  lemma {:induction false} KeysIffUsable(entries: seq<Entry>)
    ensures |Tallied(entries).keys| > 0 <==> UsableCount(entries) > 0
    decreases |entries|
  {
    TalliedKeys(entries);
    if |entries| > 0 {
      var init, e := entries[..|entries| - 1], entries[|entries| - 1];
      KeysIffUsable(init);
      TalliedKeys(init);
      var t := Tallied(init);
      if Usable(e.group) {
        var k := e.group.names[0];
        AddItemsUuids(t, e.group.names, e.uuid, k);
        assert k in multiset(e.group.names);
        assert k in Tallied(entries).uuids;
        assert Tallied(entries).keys != [];
      }
    }
  }

  /** The concertinaed lists exist once some article was folded, and then keep the promises
      of the concertina pass for the overall ranking and each taxonomy's. */
  lemma CorrelateConcertina(g: GroupName, articles: seq<Article>, params: Params)
    ensures var c := Correlate(g, articles, params);
            && (c.concertinaedSortedLists.Some? <==> UsableCount(EntriesFor(g, articles, params)) > 0)
            && (c.concertinaedSortedLists.Some? ==>
                  var lists := c.concertinaedSortedLists.value;
                  && WellRanked(lists.sortedByCount, c.sortedByCount)
                  && lists.sortedByCountGroupedByTaxonomy.Keys == (set t | t in c.taxonomies)
                  && forall t :: t in lists.sortedByCountGroupedByTaxonomy ==>
                       t in c.sortedByCountGroupedByTaxonomy
                       && WellRanked(lists.sortedByCountGroupedByTaxonomy[t], c.sortedByCountGroupedByTaxonomy[t]))
  {
    var entries := EntriesFor(g, articles, params);
    KeysIffUsable(entries);
    TalliedKeys(entries);
    var t := Tallied(entries);
    RankingsNamed(t);
    var ranked := SortByCount(RankedOf(t.keys, t.counts));
    var (taxonomies, grouped) := GroupByTaxonomy(ranked);
    ConcertinaListsFacts(ranked, taxonomies, grouped, t.uuids, params.concertinaOverlapThreshold.GetOr(DefaultOverlapThreshold));
  }

  // ---------------------------------------------------------------------------
  // `correlateMergedAnnotations`

  /** The genres kept when the caller names none. */
  const DefaultGenres: seq<string> := ["News", "Opinion"]

  /** The groups correlated when the caller names none. */
  const DefaultGroups: seq<string> := ["primaryThemes", "abouts"]

  /** `genre && targetGenres.includes(genre)`: a missing or empty genre never matches. */
  predicate InGenres(a: Article, targets: seq<string>) {
    var genre := a.mergedAnnotations.genre;
    genre.Some? && genre.value != "" && genre.value in targets
  }

  /** `articles.filter(...)` on the genre, keeping the order. */
  function ArticlesInGenres(articles: seq<Article>, targets: seq<string>): (r: seq<Article>)
    ensures |r| <= |articles|
    ensures forall i :: 0 <= i < |r| ==> InGenres(r[i], targets)
    decreases |articles|
  {
    if |articles| == 0 then []
    else
      var kept := ArticlesInGenres(articles[..|articles| - 1], targets);
      var a := articles[|articles| - 1];
      if InGenres(a, targets) then kept + [a] else kept
  }

  /** An article is kept as often as it occurs when it is in one of the genres, and never
      otherwise. */
  lemma {:induction false} ArticlesInGenresCounts(articles: seq<Article>, targets: seq<string>, x: Article)
    ensures multiset(ArticlesInGenres(articles, targets))[x] == if InGenres(x, targets) then multiset(articles)[x] else 0
    decreases |articles|
  {
    if |articles| > 0 {
      var init, a := articles[..|articles| - 1], articles[|articles| - 1];
      ArticlesInGenresCounts(init, targets, x);
      MultisetSnoc(articles, x);
      if InGenres(a, targets) {
        MultisetSnoc(ArticlesInGenres(init, targets) + [a], x);
        assert (ArticlesInGenres(init, targets) + [a])[..|ArticlesInGenres(init, targets)|] == ArticlesInGenres(init, targets);
      }
    }
  }

  /** The `correlations` object `correlateMergedAnnotations` returns. */
  datatype MergedCorrelations = MergedCorrelations(
    genres: seq<string>,
    numArticlesInGenres: nat,
    groups: map<string, Correlations>)

  /** `combinedParams.groups.forEach(...)`: each name with an extractor gets the correlation
      of that group; other names are skipped. */
  function GroupsFor(names: seq<string>, articles: seq<Article>, params: Params): map<string, Correlations>
    decreases |names|
  {
    if |names| == 0 then map[]
    else
      var groups := GroupsFor(names[..|names| - 1], articles, params);
      var name := names[|names| - 1];
      match GroupNamed(name)
      case None => groups
      case Some(g) => groups[name := Correlate(g, articles, params)]
  }

  /** A name has an entry exactly when it is listed and has an extractor; the entry is the
      correlation of that extractor's group (a repeated name computes the same value again). */
  lemma {:induction false} GroupsForEntries(names: seq<string>, articles: seq<Article>, params: Params, name: string)
    ensures name in GroupsFor(names, articles, params) <==> name in names && GroupNamed(name).Some?
    ensures name in GroupsFor(names, articles, params) ==>
              GroupsFor(names, articles, params)[name] == Correlate(GroupNamed(name).value, articles, params)
    decreases |names|
  {
    if |names| > 0 {
      var init, last := names[..|names| - 1], names[|names| - 1];
      GroupsForEntries(init, articles, params, name);
      assert name in names <==> name in init || name == last by {
        assert names == init + [last];
      }
      var groups := GroupsFor(init, articles, params);
      match GroupNamed(last)
      case None =>
        assert GroupsFor(names, articles, params) == groups;
      case Some(g) =>
        var entry := Correlate(g, articles, params);
        assert GroupsFor(names, articles, params) == groups[last := entry];
        if name == last {
          assert GroupsFor(names, articles, params)[name] == entry;
        }
    }
  }

  /** `correlateMergedAnnotations(params, articles).correlations`: the caller's genres and
      groups override the defaults, and every group sees the caller's other parameters. */
  function CorrelateMerged(params: Params, articles: seq<Article>): MergedCorrelations {
    var targets := params.genres.GetOr(DefaultGenres);
    var inGenres := ArticlesInGenres(articles, targets);
    MergedCorrelations(targets, |inGenres|, GroupsFor(params.groups.GetOr(DefaultGroups), inGenres, params))
  }

  /** `correlateMergedAnnotations(params, articles)` */
  method CorrelateMergedAnnotations(params: Params, articles: seq<Article>) returns (c: MergedCorrelations)
    ensures c == CorrelateMerged(params, articles)
  {
    var targets := params.genres.GetOr(DefaultGenres);
    var inGenres := ArticlesInGenres(articles, targets);
    var names := params.groups.GetOr(DefaultGroups);
    var groups: map<string, Correlations> := map[];
    for i := 0 to |names|
      invariant groups == GroupsFor(names[..i], inGenres, params)
    {
      assert names[..i + 1][..i] == names[..i];
      var g := GroupNamed(names[i]);
      if g.Some? {
        var correlated := CorrelateGroupInArticles(g.value, inGenres, params);
        groups := groups[names[i] := correlated];
      }
    }
    assert names[..|names|] == names;
    c := MergedCorrelations(targets, |inGenres|, groups);
  }

  /** Which groups the result holds, and that each counts exactly the articles in the genres. */
  lemma CorrelateMergedGroups(params: Params, articles: seq<Article>, name: string)
    ensures var c := CorrelateMerged(params, articles);
            var names := params.groups.GetOr(DefaultGroups);
            && c.genres == params.genres.GetOr(DefaultGenres)
            && (name in c.groups <==> name in names && GroupNamed(name).Some?)
            && (name in c.groups ==>
                  && c.groups[name] == Correlate(GroupNamed(name).value, ArticlesInGenres(articles, c.genres), params)
                  && c.groups[name].numArticles == c.numArticlesInGenres)
  {
    var c := CorrelateMerged(params, articles);
    GroupsForEntries(params.groups.GetOr(DefaultGroups), ArticlesInGenres(articles, c.genres), params, name);
  }

  /** Without a `groups` parameter the result correlates the primary themes and the abouts. */
  lemma CorrelateMergedDefaults(params: Params, articles: seq<Article>, name: string)
    requires params.groups.None?
    ensures name in CorrelateMerged(params, articles).groups <==> name == "primaryThemes" || name == "abouts"
  {
    CorrelateMergedGroups(params, articles, name);
  }
}
