/** `mergeCapiFlavours` of lib/searchAndContent.js: reconciles the two schemas of the content
    API's annotations. One scan decides which schema an article uses; then every annotation is
    filed under its `TYPE:prefLabel` key in a shared lookup (the module-level
    `cachedAnnotationsByCsv`, here the field of an `AnnotationCache` object) and sorted by the
    suffix of its predicate into at most one of five lists, with the genre, the primary theme
    and the primary classification kept as single values. */
module CapiMerge {
  import opened Common

  /** An annotation of an article: the predicate relating it to the concept, the concept's
      type (e.g. `PERSON`, `GENRE`) and its preferred label. */
  datatype Annotation = Annotation(predicateUri: string, typeName: string, prefLabel: string)

  /** The merged view. The three optional fields are absent until some annotation sets them. */
  datatype Massaged = Massaged(
    abouts: seq<string>,
    implicitlyAbouts: seq<string>,
    mentions: seq<string>,
    classifiedBys: seq<string>,
    implicitlyClassifiedBys: seq<string>,
    genre: Option<string>,
    primaryTheme: Option<string>,
    primarilyClassifiedBy: Option<string>)

  const EmptyMassaged := Massaged([], [], [], [], [], None, None, None)

  /** The suffix classes of predicates, in the order the source tries them. */
  datatype Relation =
    | About | ImplicitlyAbout | DisplayTag | MajorMentions | Mentions
    | ClassifiedBy | ImplicitlyClassifiedBy | PrimarilyClassifiedBy | Unrelated

  function RelationOf(predicateUri: string): Relation {
    if EndsWith(predicateUri, "/about") then About
    else if EndsWith(predicateUri, "/implicitlyAbout") then ImplicitlyAbout
    else if EndsWith(predicateUri, "/hasDisplayTag") then DisplayTag
    else if EndsWith(predicateUri, "/majorMentions") then MajorMentions
    else if EndsWith(predicateUri, "/mentions") then Mentions
    else if EndsWith(predicateUri, "/isClassifiedBy") then ClassifiedBy
    else if EndsWith(predicateUri, "/implicitlyClassifiedBy") then ImplicitlyClassifiedBy
    else if EndsWith(predicateUri, "/isPrimarilyClassifiedBy") then PrimarilyClassifiedBy
    else Unrelated
  }

  /** `[anno.type, anno.prefLabel].join(':')` */
  function Csv(a: Annotation): string {
    a.typeName + ":" + a.prefLabel
  }

  // ---------------------------------------------------------------------------
  // Schema detection

  /** What an annotation says about the schema: an old-schema signature (`/majorMentions`),
      a new-schema one (`/implicitlyAbout` or `/hasDisplayTag`), or nothing. */
  function Signature(a: Annotation): Option<bool> {
    if EndsWith(a.predicateUri, "/majorMentions") then Some(false)
    else if EndsWith(a.predicateUri, "/implicitlyAbout") || EndsWith(a.predicateUri, "/hasDisplayTag") then Some(true)
    else None
  }

  /** The verdict of the first annotation carrying a signature, new when none does. */
  function IsNewSchema(annotations: seq<Annotation>): bool {
    if |annotations| == 0 then true
    else if Signature(annotations[0]).Some? then Signature(annotations[0]).value
    else IsNewSchema(annotations[1..])
  }

  /** The schema is old exactly when some annotation ends in `/majorMentions` and no earlier
      one carries a signature. */
  lemma {:induction false} OldSchemaIffFirstSignatureIsMajorMentions(annotations: seq<Annotation>)
    ensures !IsNewSchema(annotations)
        <==> exists i :: 0 <= i < |annotations| && Signature(annotations[i]) == Some(false)
                         && forall j :: 0 <= j < i ==> Signature(annotations[j]).None?
  {
    if |annotations| > 0 && Signature(annotations[0]).None? {
      var rest := annotations[1..];
      OldSchemaIffFirstSignatureIsMajorMentions(rest);
      if !IsNewSchema(annotations) {
        var k :| 0 <= k < |rest| && Signature(rest[k]) == Some(false)
                 && forall j :: 0 <= j < k ==> Signature(rest[j]).None?;
        assert forall j :: 0 <= j < k + 1 ==> Signature(annotations[j]).None? by {
          forall j | 0 <= j < k + 1 ensures Signature(annotations[j]).None? {
            if j > 0 { assert annotations[j] == rest[j - 1]; }
          }
        }
        assert Signature(annotations[k + 1]) == Some(false);
      }
      if exists i :: 0 <= i < |annotations| && Signature(annotations[i]) == Some(false)
                     && forall j :: 0 <= j < i ==> Signature(annotations[j]).None? {
        var i :| 0 <= i < |annotations| && Signature(annotations[i]) == Some(false)
                 && forall j :: 0 <= j < i ==> Signature(annotations[j]).None?;
        assert i > 0;
        assert Signature(rest[i - 1]) == Some(false);
        assert forall j :: 0 <= j < i - 1 ==> Signature(rest[j]).None? by {
          forall j | 0 <= j < i - 1 ensures Signature(rest[j]).None? {
            assert rest[j] == annotations[j + 1];
          }
        }
      }
    }
  }

  /** The source's `for`/`break` scan. */
  method DetectSchema(annotations: seq<Annotation>) returns (isNew: bool)
    ensures isNew == IsNewSchema(annotations)
  {
    isNew := true;
    var i := 0;
    while i < |annotations|
      invariant 0 <= i <= |annotations|
      invariant isNew
      invariant IsNewSchema(annotations) == IsNewSchema(annotations[i..])
    {
      assert annotations[i..][1..] == annotations[i + 1..];
      var predicateUri := annotations[i].predicateUri;
      if EndsWith(predicateUri, "/majorMentions") {
        isNew := false;
        return;
      } else if EndsWith(predicateUri, "/implicitlyAbout") || EndsWith(predicateUri, "/hasDisplayTag") {
        isNew := true;
        return;
      }
      i := i + 1;
    }
  }

  // ---------------------------------------------------------------------------
  // Filing the annotations

  /** The body of the source's `forEach`, leaving out the lookup write. */
  function AddAnnotation(m: Massaged, a: Annotation, isNew: bool): Massaged {
    var csv := Csv(a);
    var g := if a.typeName == "GENRE" then m.(genre := Some(a.prefLabel)) else m;
    match RelationOf(a.predicateUri)
    case About =>
      g.(abouts := g.abouts + [csv], primaryTheme := if !isNew then Some(csv) else g.primaryTheme)
    case ImplicitlyAbout => g.(implicitlyAbouts := g.implicitlyAbouts + [csv])
    case DisplayTag => g.(primaryTheme := Some(csv))
    case MajorMentions => g.(abouts := g.abouts + [csv])
    case Mentions => g.(mentions := g.mentions + [csv])
    case ClassifiedBy => g.(classifiedBys := g.classifiedBys + [csv])
    case ImplicitlyClassifiedBy => g.(implicitlyClassifiedBys := g.implicitlyClassifiedBys + [csv])
    case PrimarilyClassifiedBy => g.(primarilyClassifiedBy := Some(csv))
    case Unrelated => g
  }

  /** The merged view after the `forEach` has run over `annotations`. */
  function Massage(annotations: seq<Annotation>, isNew: bool): Massaged {
    if |annotations| == 0 then EmptyMassaged
    else AddAnnotation(Massage(annotations[..|annotations| - 1], isNew), annotations[|annotations| - 1], isNew)
  }

  /** The lookup after every annotation has been stored under its key, later ones replacing
      earlier ones. */
  function Cache(lookup: map<string, Annotation>, annotations: seq<Annotation>): map<string, Annotation> {
    if |annotations| == 0 then lookup
    else
      var last := annotations[|annotations| - 1];
      Cache(lookup, annotations[..|annotations| - 1])[Csv(last) := last]
  }

  // ---------------------------------------------------------------------------
  // What the fold amounts to

  /** The keys of the annotations that satisfy `p`, in order. */
  function CsvsWhere(annotations: seq<Annotation>, p: Annotation -> bool): seq<string> {
    if |annotations| == 0 then []
    else
      var last := annotations[|annotations| - 1];
      CsvsWhere(annotations[..|annotations| - 1], p) + (if p(last) then [Csv(last)] else [])
  }

  /** The value `f` gives the last annotation satisfying `p`, if any. */
  function LastWhere(annotations: seq<Annotation>, p: Annotation -> bool, f: Annotation -> string): Option<string> {
    if |annotations| == 0 then None
    else
      var last := annotations[|annotations| - 1];
      if p(last) then Some(f(last)) else LastWhere(annotations[..|annotations| - 1], p, f)
  }

  predicate GoesToAbouts(a: Annotation) { RelationOf(a.predicateUri) == About || RelationOf(a.predicateUri) == MajorMentions }
  predicate GoesToImplicitlyAbouts(a: Annotation) { RelationOf(a.predicateUri) == ImplicitlyAbout }
  predicate GoesToMentions(a: Annotation) { RelationOf(a.predicateUri) == Mentions }
  predicate GoesToClassifiedBys(a: Annotation) { RelationOf(a.predicateUri) == ClassifiedBy }
  predicate GoesToImplicitlyClassifiedBys(a: Annotation) { RelationOf(a.predicateUri) == ImplicitlyClassifiedBy }
  predicate IsGenre(a: Annotation) { a.typeName == "GENRE" }
  predicate IsDisplayTag(a: Annotation) { RelationOf(a.predicateUri) == DisplayTag }
  predicate IsAboutOrDisplayTag(a: Annotation) { RelationOf(a.predicateUri) == About || RelationOf(a.predicateUri) == DisplayTag }
  predicate IsPrimaryClassification(a: Annotation) { RelationOf(a.predicateUri) == PrimarilyClassifiedBy }
  function Label(a: Annotation): string { a.prefLabel }

  /** The annotations that set the primary theme: `/hasDisplayTag` ones, and under the old
      schema `/about` ones too. */
  function SetsPrimaryTheme(isNew: bool): Annotation -> bool {
    if isNew then IsDisplayTag else IsAboutOrDisplayTag
  }

  /** `abouts` holds, in order, the keys of the `/about` and the `/majorMentions` annotations. */
  lemma {:induction false} MassageAbouts(annotations: seq<Annotation>, isNew: bool)
    ensures Massage(annotations, isNew).abouts == CsvsWhere(annotations, GoesToAbouts)
  {
    if |annotations| > 0 {
      var init, last := annotations[..|annotations| - 1], annotations[|annotations| - 1];
      MassageAbouts(init, isNew);
      assert Massage(annotations, isNew) == AddAnnotation(Massage(init, isNew), last, isNew);
    }
  }

  /** `implicitlyAbouts` holds, in order, the keys of the `/implicitlyAbout` annotations. */
  lemma {:induction false} MassageImplicitlyAbouts(annotations: seq<Annotation>, isNew: bool)
    ensures Massage(annotations, isNew).implicitlyAbouts == CsvsWhere(annotations, GoesToImplicitlyAbouts)
  {
    if |annotations| > 0 {
      var init, last := annotations[..|annotations| - 1], annotations[|annotations| - 1];
      MassageImplicitlyAbouts(init, isNew);
      assert Massage(annotations, isNew) == AddAnnotation(Massage(init, isNew), last, isNew);
    }
  }

  /** `mentions` holds, in order, the keys of the `/mentions` annotations. */
  lemma {:induction false} MassageMentions(annotations: seq<Annotation>, isNew: bool)
    ensures Massage(annotations, isNew).mentions == CsvsWhere(annotations, GoesToMentions)
  {
    if |annotations| > 0 {
      var init, last := annotations[..|annotations| - 1], annotations[|annotations| - 1];
      MassageMentions(init, isNew);
      assert Massage(annotations, isNew) == AddAnnotation(Massage(init, isNew), last, isNew);
    }
  }

  /** `classifiedBys` holds, in order, the keys of the `/isClassifiedBy` annotations. */
  lemma {:induction false} MassageClassifiedBys(annotations: seq<Annotation>, isNew: bool)
    ensures Massage(annotations, isNew).classifiedBys == CsvsWhere(annotations, GoesToClassifiedBys)
  {
    if |annotations| > 0 {
      var init, last := annotations[..|annotations| - 1], annotations[|annotations| - 1];
      MassageClassifiedBys(init, isNew);
      assert Massage(annotations, isNew) == AddAnnotation(Massage(init, isNew), last, isNew);
    }
  }

  /** `implicitlyClassifiedBys` holds, in order, the keys of the `/implicitlyClassifiedBy` annotations. */
  lemma {:induction false} MassageImplicitlyClassifiedBys(annotations: seq<Annotation>, isNew: bool)
    ensures Massage(annotations, isNew).implicitlyClassifiedBys == CsvsWhere(annotations, GoesToImplicitlyClassifiedBys)
  {
    if |annotations| > 0 {
      var init, last := annotations[..|annotations| - 1], annotations[|annotations| - 1];
      MassageImplicitlyClassifiedBys(init, isNew);
      assert Massage(annotations, isNew) == AddAnnotation(Massage(init, isNew), last, isNew);
    }
  }

  /** The genre is the label of the last `GENRE` annotation. */
  lemma {:induction false} MassageGenre(annotations: seq<Annotation>, isNew: bool)
    ensures Massage(annotations, isNew).genre == LastWhere(annotations, IsGenre, Label)
  {
    if |annotations| > 0 {
      var init, last := annotations[..|annotations| - 1], annotations[|annotations| - 1];
      MassageGenre(init, isNew);
      assert Massage(annotations, isNew) == AddAnnotation(Massage(init, isNew), last, isNew);
    }
  }

  /** The primary theme is the key of the last annotation that sets it: the last `/hasDisplayTag`, or under the old schema the last `/about` or `/hasDisplayTag`. */
  lemma {:induction false} MassagePrimaryTheme(annotations: seq<Annotation>, isNew: bool)
    ensures Massage(annotations, isNew).primaryTheme == LastWhere(annotations, SetsPrimaryTheme(isNew), Csv)
  {
    if |annotations| > 0 {
      var init, last := annotations[..|annotations| - 1], annotations[|annotations| - 1];
      MassagePrimaryTheme(init, isNew);
      assert Massage(annotations, isNew) == AddAnnotation(Massage(init, isNew), last, isNew);
    }
  }

  /** The primary classification is the key of the last `/isPrimarilyClassifiedBy` annotation. */
  lemma {:induction false} MassagePrimarilyClassifiedBy(annotations: seq<Annotation>, isNew: bool)
    ensures Massage(annotations, isNew).primarilyClassifiedBy == LastWhere(annotations, IsPrimaryClassification, Csv)
  {
    if |annotations| > 0 {
      var init, last := annotations[..|annotations| - 1], annotations[|annotations| - 1];
      MassagePrimarilyClassifiedBy(init, isNew);
      assert Massage(annotations, isNew) == AddAnnotation(Massage(init, isNew), last, isNew);
    }
  }

  /** Each annotation lands in at most one of the five lists: together they hold exactly one
      key per annotation whose suffix files it in a list. */
  lemma {:induction false} AtMostOneList(annotations: seq<Annotation>, isNew: bool)
    ensures var m := Massage(annotations, isNew);
            |m.abouts| + |m.implicitlyAbouts| + |m.mentions| + |m.classifiedBys| + |m.implicitlyClassifiedBys|
            == |CsvsWhere(annotations, IsListed)|
  {
    if |annotations| > 0 {
      var init, last := annotations[..|annotations| - 1], annotations[|annotations| - 1];
      AtMostOneList(init, isNew);
      assert Massage(annotations, isNew) == AddAnnotation(Massage(init, isNew), last, isNew);
    }
  }

  predicate IsListed(a: Annotation) {
    GoesToAbouts(a) || GoesToImplicitlyAbouts(a) || GoesToMentions(a) || GoesToClassifiedBys(a)
    || GoesToImplicitlyClassifiedBys(a)
  }

  /** The suffix tests are case-sensitive: a `/majorMentions` predicate files under
      `abouts`, not under `mentions`, and an `/implicitlyAbout` one is not an `/about`. */
  lemma SuffixClasses(base: string)
    ensures RelationOf(base + "/majorMentions") == MajorMentions
    ensures RelationOf(base + "/implicitlyAbout") == ImplicitlyAbout
  {
    var s := base + "/majorMentions";
    assert EndsWith(s, "/majorMentions") by { assert s[|s| - 14..] == "/majorMentions"; }
    if EndsWith(s, "/about") {
      EndsWithNested(s, "/about", "/majorMentions");
      assert false;
    }
    if EndsWith(s, "/implicitlyAbout") {
      EndsWithNested(s, "/majorMentions", "/implicitlyAbout");
      assert false;
    }
    if EndsWith(s, "/hasDisplayTag") {
      EndsWithNested(s, "/hasDisplayTag", "/majorMentions");
      assert false;
    }
    var t := base + "/implicitlyAbout";
    assert EndsWith(t, "/implicitlyAbout") by { assert t[|t| - 16..] == "/implicitlyAbout"; }
    if EndsWith(t, "/about") {
      EndsWithNested(t, "/about", "/implicitlyAbout");
      assert false;
    }
  }

  /** `LastWhere` finds the last match: it is absent exactly when nothing matches, and
      otherwise it is the value of a match with no later match. */
  lemma {:induction false} LastWhereIsLast(annotations: seq<Annotation>, p: Annotation -> bool, f: Annotation -> string)
    ensures LastWhere(annotations, p, f).None? <==> forall i :: 0 <= i < |annotations| ==> !p(annotations[i])
    ensures LastWhere(annotations, p, f).Some? ==>
              exists i :: 0 <= i < |annotations| && p(annotations[i]) && f(annotations[i]) == LastWhere(annotations, p, f).value
                          && forall j :: i < j < |annotations| ==> !p(annotations[j])
  {
    if |annotations| > 0 {
      var init := annotations[..|annotations| - 1];
      LastWhereIsLast(init, p, f);
      assert forall i :: 0 <= i < |init| ==> init[i] == annotations[i];
    }
  }

  /** `CsvsWhere` keeps exactly the keys of the matching annotations. */
  lemma {:induction false} CsvsWhereMembers(annotations: seq<Annotation>, p: Annotation -> bool, k: string)
    ensures k in CsvsWhere(annotations, p) <==> exists i :: 0 <= i < |annotations| && p(annotations[i]) && Csv(annotations[i]) == k
  {
    if |annotations| > 0 {
      var init := annotations[..|annotations| - 1];
      CsvsWhereMembers(init, p, k);
      assert forall i :: 0 <= i < |init| ==> init[i] == annotations[i];
    }
  }

  /** The lookup gains the key of every annotation and keeps every other entry; an entry for
      a key is the last annotation with that key. */
  lemma {:induction false} CacheIsLastWriteWins(lookup: map<string, Annotation>, annotations: seq<Annotation>, k: string)
    ensures k in Cache(lookup, annotations) <==> k in lookup || exists i :: 0 <= i < |annotations| && Csv(annotations[i]) == k
    ensures (forall i :: 0 <= i < |annotations| ==> Csv(annotations[i]) != k) && k in lookup
            ==> Cache(lookup, annotations)[k] == lookup[k]
    ensures forall i :: 0 <= i < |annotations| && Csv(annotations[i]) == k
                        && (forall j :: i < j < |annotations| ==> Csv(annotations[j]) != k)
                        ==> Cache(lookup, annotations)[k] == annotations[i]
  {
    if |annotations| > 0 {
      var init := annotations[..|annotations| - 1];
      CacheIsLastWriteWins(lookup, init, k);
      assert forall i :: 0 <= i < |init| ==> init[i] == annotations[i];
    }
  }

  /** The source's `if`/`else if` chain for one annotation. */
  method File(m: Massaged, anno: Annotation, isNew: bool) returns (m': Massaged)
    ensures m' == AddAnnotation(m, anno, isNew)
  {
    var csv := Csv(anno);
    m' := m;
    if anno.typeName == "GENRE" {
      m' := m'.(genre := Some(anno.prefLabel));
    }
    var p := anno.predicateUri;
    if EndsWith(p, "/about") {
      m' := m'.(abouts := m'.abouts + [csv]);
      if !isNew {
        m' := m'.(primaryTheme := Some(csv));
      }
    } else if EndsWith(p, "/implicitlyAbout") {
      m' := m'.(implicitlyAbouts := m'.implicitlyAbouts + [csv]);
    } else if EndsWith(p, "/hasDisplayTag") {
      m' := m'.(primaryTheme := Some(csv));
    } else if EndsWith(p, "/majorMentions") {
      m' := m'.(abouts := m'.abouts + [csv]);
    } else if EndsWith(p, "/mentions") {
      m' := m'.(mentions := m'.mentions + [csv]);
    } else if EndsWith(p, "/isClassifiedBy") {
      m' := m'.(classifiedBys := m'.classifiedBys + [csv]);
    } else if EndsWith(p, "/implicitlyClassifiedBy") {
      m' := m'.(implicitlyClassifiedBys := m'.implicitlyClassifiedBys + [csv]);
    } else if EndsWith(p, "/isPrimarilyClassifiedBy") {
      m' := m'.(primarilyClassifiedBy := Some(csv));
    }
  }

  // ---------------------------------------------------------------------------
  // The stateful operation

  /** The lookup of annotations by `TYPE:prefLabel` key, shared by every merge. */
  class AnnotationCache {
    var byCsv: map<string, Annotation>

    constructor ()
      ensures byCsv == map[]
    {
      byCsv := map[];
    }

    /** `mergeCapiFlavours`: the merged view of the annotations, with every annotation stored
        in the lookup. */
    method MergeCapiFlavours(annotations: seq<Annotation>) returns (m: Massaged)
      modifies this
      ensures m == Massage(annotations, IsNewSchema(annotations))
      ensures byCsv == Cache(old(byCsv), annotations)
    {
      var isNew := DetectSchema(annotations);
      m := EmptyMassaged;
      var i := 0;
      while i < |annotations|
        invariant 0 <= i <= |annotations|
        invariant m == Massage(annotations[..i], isNew)
        invariant byCsv == Cache(old(byCsv), annotations[..i])
      {
        var anno := annotations[i];
        byCsv := byCsv[Csv(anno) := anno];
        m := File(m, anno, isNew);
        assert annotations[..i + 1][..i] == annotations[..i];
        i := i + 1;
      }
      assert annotations[..i] == annotations;
    }
  }
}
