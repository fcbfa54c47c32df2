/**
 * The part of the GATE document model that the lookup stage uses: feature
 * values, feature maps, annotations, annotation sets and documents.
 * An annotation set is a sequence in its enumeration order; as a set it never
 * holds the same annotation twice (see Distinct).
 */
module Gate {

  /** A feature value. Feature maps hold arbitrary Java objects; the stage only
      tells strings, null and anything else apart. */
  datatype Value = Str(s: string) | Null | Other(tag: nat)

  type FeatureMap = map<string, Value>

  /** FeatureMap.get: a missing feature reads as null. */
  function Get(fm: FeatureMap, name: string): Value {
    if name in fm then fm[name] else Null
  }

  /** An annotation: identity, type and span never change; the feature map is
      updated in place. */
  class Annotation {
    const id: nat
    const annType: string
    const startOffset: nat
    const endOffset: nat
    var features: FeatureMap

    constructor (id: nat, annType: string, startOffset: nat, endOffset: nat, features: FeatureMap)
      ensures this.id == id && this.annType == annType
      ensures this.startOffset == startOffset && this.endOffset == endOffset
      ensures this.features == features
    {
      this.id := id;
      this.annType := annType;
      this.startOffset := startOffset;
      this.endOffset := endOffset;
      this.features := features;
    }
  }

  /** Span inclusion: `a` lies inside the span of `c`. */
  predicate Within(a: Annotation, c: Annotation) {
    c.startOffset <= a.startOffset && a.endOffset <= c.endOffset
  }

  /** No annotation occurs twice in an annotation set. */
  ghost predicate Distinct(anns: seq<Annotation>) {
    forall a :: a in anns ==> multiset(anns)[a] == 1
  }

  /** A document: its default annotation set, its named sets, and the cleaned
      covered text of an annotation (Utils.cleanStringFor, a library function
      whose internals are not part of this model). */
  datatype Document = Document(
    defaultSet: seq<Annotation>,
    namedSets: map<string, seq<Annotation>>,
    cleanStringFor: Annotation -> string)
  {
    /** Document.getAnnotations(name): a name without a set gives an empty set. */
    function Named(name: string): seq<Annotation> {
      if name in namedSets then namedSets[name] else []
    }

    /** Every annotation set of the document is a set. */
    ghost predicate WellFormed() {
      Distinct(defaultSet) && forall n :: n in namedSets ==> Distinct(namedSets[n])
    }
  }

  /** AnnotationSet.get(type): the annotations of one type, in the set's order. */
  function OfType(anns: seq<Annotation>, t: string): (r: seq<Annotation>)
    ensures multiset(r) <= multiset(anns)
    ensures forall a :: a in anns ==> multiset(r)[a] == if a.annType == t then multiset(anns)[a] else 0
  {
    if anns == [] then []
    else
      assert anns == [anns[0]] + anns[1..];
      (if anns[0].annType == t then [anns[0]] else []) + OfType(anns[1..], t)
  }

  /** gate.Utils.getContainedAnnotations(anns, c), taken to be the annotations of
      `anns` whose span lies inside the span of `c`, in the order of `anns`. */
  function Contained(anns: seq<Annotation>, c: Annotation): (r: seq<Annotation>)
    ensures multiset(r) <= multiset(anns)
    ensures forall a :: a in anns ==> multiset(r)[a] == if Within(a, c) then multiset(anns)[a] else 0
  {
    if anns == [] then []
    else
      assert anns == [anns[0]] + anns[1..];
      (if Within(anns[0], c) then [anns[0]] else []) + Contained(anns[1..], c)
  }

  /** The feature maps of a set of annotations, as a value. */
  ghost function FeaturesOf(anns: set<Annotation>): map<Annotation, FeatureMap>
    reads anns
  {
    map a | a in anns :: a.features
  }

  /** The annotations of `anns` hold the feature maps `snap` gives them. */
  ghost predicate FeaturesAre(anns: set<Annotation>, snap: map<Annotation, FeatureMap>)
    reads anns
  {
    forall a :: a in anns ==> a in snap && a.features == snap[a]
  }
}
