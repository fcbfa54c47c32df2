/**
 * Which annotations MapdbLookup.process visits, and in which order
 * (MapdbLookup.java:170-212).
 */
module Selection {
  import opened Base
  import opened Gate
  import opened MapDb
  import opened Params

  /** The input annotation set: the default set when no set name is given. */
  function InputSet(cfg: Config, doc: Document): (r: seq<Annotation>)
    ensures cfg.inputASName == "" ==> r == doc.defaultSet
    ensures cfg.inputASName != "" ==> r == doc.Named(cfg.inputASName)
  {
    if cfg.inputASName == "" then doc.defaultSet else doc.Named(cfg.inputASName)
  }

  /** The annotations of the input type in the input set. */
  function InputAnns(cfg: Config, doc: Document): seq<Annotation> {
    OfType(InputSet(cfg, doc), cfg.inputType)
  }

  /** The annotations of the containing type in the input set. */
  function ContainingAnns(cfg: Config, doc: Document): seq<Annotation> {
    OfType(InputSet(cfg, doc), cfg.containingType)
  }

  /** The annotations whose features a run may change. */
  ghost function Candidates(cfg: Config, doc: Document): set<Annotation> {
    set a | a in InputAnns(cfg, doc)
  }

  /** How many of the containing annotations `cs` have `a` inside their span. */
  function Covering(cs: seq<Annotation>, a: Annotation): nat {
    if cs == [] then 0 else (if Within(a, cs[0]) then 1 else 0) + Covering(cs[1..], a)
  }

  /** For each containing annotation in order, the annotations of `anns`
      inside its span, concatenated; nothing is de-duplicated. */
  function ContainedVisits(cs: seq<Annotation>, anns: seq<Annotation>): seq<Annotation> {
    if cs == [] then [] else Contained(anns, cs[0]) + ContainedVisits(cs[1..], anns)
  }

  /** An annotation is visited iff it is one of `anns` and some containing
      annotation's span includes it. */
  lemma {:induction false} ContainedVisitsMembers(cs: seq<Annotation>, anns: seq<Annotation>, a: Annotation)
    ensures a in ContainedVisits(cs, anns) <==> a in anns && Covering(cs, a) > 0
  {
    if cs != [] {
      ContainedVisitsMembers(cs[1..], anns, a);
      var here := Contained(anns, cs[0]);
      assert a in here <==> a in multiset(here);
      if a in anns {
        assert a in multiset(anns);
      }
    }
  }

  /** The sequence of annotations process looks up, or the configuration error
      it raises first. */
  function Select(cfg: Config, doc: Document): (r: Result<seq<Annotation>, Error>)
    ensures r.Err? <==> cfg.inputType == ""
    ensures r.Err? ==> r.error == EmptyInputType
    ensures r.Ok? ==> forall a :: a in r.value ==> a in InputAnns(cfg, doc)
  {
    if cfg.inputType == "" then Err(EmptyInputType)
    else if cfg.containingType == "" then Ok(InputAnns(cfg, doc))
    else
      ContainedVisitsWithin(ContainingAnns(cfg, doc), InputAnns(cfg, doc));
      Ok(ContainedVisits(ContainingAnns(cfg, doc), InputAnns(cfg, doc)))
  }

  /** Every visited annotation is one of `anns`. */
  lemma ContainedVisitsWithin(cs: seq<Annotation>, anns: seq<Annotation>)
    ensures forall a :: a in ContainedVisits(cs, anns) ==> a in anns
  {
    forall a | a in ContainedVisits(cs, anns)
      ensures a in anns
    {
      ContainedVisitsMembers(cs, anns, a);
    }
  }

  /** Without a containing type, process visits every input annotation of the
      input type once, in the set's order. */
  lemma SelectWithoutContaining(cfg: Config, doc: Document)
    requires cfg.inputType != "" && cfg.containingType == "" && doc.WellFormed()
    ensures Select(cfg, doc) == Ok(InputAnns(cfg, doc))
    ensures forall a :: a in InputSet(cfg, doc) ==>
      multiset(Select(cfg, doc).value)[a] == if a.annType == cfg.inputType then 1 else 0
  {
    assert Distinct(InputSet(cfg, doc)) by {
      if cfg.inputASName != "" && cfg.inputASName in doc.namedSets {
        assert InputSet(cfg, doc) == doc.namedSets[cfg.inputASName];
      }
    }
  }

  /** Covering counts the containing annotations around `a`: it is zero exactly
      when no containing span includes `a`. */
  lemma {:induction false} CoveringZero(cs: seq<Annotation>, a: Annotation)
    ensures Covering(cs, a) == 0 <==> forall i :: 0 <= i < |cs| ==> !Within(a, cs[i])
  {
    if cs != [] {
      CoveringZero(cs[1..], a);
      if Covering(cs, a) == 0 {
        forall i | 0 <= i < |cs| ensures !Within(a, cs[i]) {
          if i > 0 { assert cs[i] == cs[1..][i - 1]; }
        }
      } else if Within(a, cs[0]) {
      } else {
        var i :| 0 <= i < |cs[1..]| && Within(a, cs[1..][i]);
        assert Within(a, cs[i + 1]);
      }
    }
  }

  /** Two different containing annotations around `a` count twice. */
  lemma {:induction false} CoveringTwo(cs: seq<Annotation>, a: Annotation, i: nat, j: nat)
    requires i < j < |cs| && Within(a, cs[i]) && Within(a, cs[j])
    ensures Covering(cs, a) >= 2
  {
    if i == 0 {
      assert Within(a, cs[1..][j - 1]);
      CoveringZero(cs[1..], a);
    } else {
      assert Within(a, cs[1..][i - 1]) && Within(a, cs[1..][j - 1]);
      CoveringTwo(cs[1..], a, i - 1, j - 1);
    }
  }

  /** With a containing type, an input annotation is visited once per
      containing annotation whose span includes it. */
  lemma {:induction false} ContainedVisitsCount(cs: seq<Annotation>, anns: seq<Annotation>, a: Annotation)
    requires Distinct(anns)
    ensures multiset(ContainedVisits(cs, anns))[a] == if a in anns then Covering(cs, a) else 0
  {
    if cs != [] {
      ContainedVisitsCount(cs[1..], anns, a);
      if a !in anns {
        assert multiset(Contained(anns, cs[0]))[a] == 0;
      }
    }
  }

  /** ContainedVisits of a concatenation is the concatenation of ContainedVisits. */
  lemma {:induction false} ContainedVisitsAppend(xs: seq<Annotation>, ys: seq<Annotation>, anns: seq<Annotation>)
    ensures ContainedVisits(xs + ys, anns) == ContainedVisits(xs, anns) + ContainedVisits(ys, anns)
  {
    if xs == [] {
      assert xs + ys == ys;
    } else {
      assert (xs + ys)[1..] == xs[1..] + ys;
      ContainedVisitsAppend(xs[1..], ys, anns);
    }
  }

  /** The visits of one containing annotation are its contained annotations. */
  lemma ContainedVisitsSingle(c: Annotation, anns: seq<Annotation>)
    ensures ContainedVisits([c], anns) == Contained(anns, c)
  {
    assert [c][1..] == [];
  }

  /** The visits of the containing annotations before position j, then from it. */
  lemma ContainedVisitsSplit(cs: seq<Annotation>, j: nat, anns: seq<Annotation>)
    requires j <= |cs|
    ensures ContainedVisits(cs, anns) == ContainedVisits(cs[..j], anns) + ContainedVisits(cs[j..], anns)
  {
    assert cs == cs[..j] + cs[j..];
    ContainedVisitsAppend(cs[..j], cs[j..], anns);
  }

  /** Visiting one more containing annotation appends its contained
      annotations. */
  lemma ContainedVisitsPrefix(cs: seq<Annotation>, j: nat, anns: seq<Annotation>)
    requires j < |cs|
    ensures ContainedVisits(cs[..j + 1], anns) == ContainedVisits(cs[..j], anns) + Contained(anns, cs[j])
  {
    ContainedVisitsSingle(cs[j], anns);
    assert cs[..j + 1] == cs[..j] + [cs[j]];
    ContainedVisitsAppend(cs[..j], [cs[j]], anns);
  }

  /** The annotations contained in the j-th containing annotation are visited
      right after those of the containing annotations before it. */
  lemma ContainedVisitsAt(cs: seq<Annotation>, j: nat, anns: seq<Annotation>)
    requires j < |cs|
    ensures |ContainedVisits(cs[..j + 1], anns)| == |ContainedVisits(cs[..j], anns)| + |Contained(anns, cs[j])|
    ensures |ContainedVisits(cs[..j + 1], anns)| <= |ContainedVisits(cs, anns)|
    ensures ContainedVisits(cs, anns)[|ContainedVisits(cs[..j], anns)|..|ContainedVisits(cs[..j + 1], anns)|]
      == Contained(anns, cs[j])
  {
    ContainedVisitsPrefix(cs, j, anns);
    ContainedVisitsSplit(cs, j + 1, anns);
    SliceMiddle(ContainedVisits(cs[..j], anns), Contained(anns, cs[j]), ContainedVisits(cs[j + 1..], anns));
  }

  /** The i-th element of a slice starting at k0 is element k0 + i. */
  lemma SliceAt(vs: seq<Annotation>, k0: nat, anns: seq<Annotation>, i: nat)
    requires k0 + |anns| <= |vs| && vs[k0..k0 + |anns|] == anns && i < |anns|
    ensures anns[i] == vs[k0 + i]
  {
  }

  /** The middle part of a concatenation, sliced back out. */
  lemma SliceMiddle(before: seq<Annotation>, here: seq<Annotation>, after: seq<Annotation>)
    ensures (before + here + after)[|before|..|before| + |here|] == here
  {
  }

  /** With a containing type, an annotation is visited iff it is an input
      annotation inside some containing span; one outside every containing span
      is never visited. */
  lemma SelectWithContaining(cfg: Config, doc: Document, a: Annotation)
    requires cfg.inputType != "" && cfg.containingType != ""
    ensures Select(cfg, doc).Ok?
    ensures a in Select(cfg, doc).value <==>
      a in InputAnns(cfg, doc) && exists i :: 0 <= i < |ContainingAnns(cfg, doc)| && Within(a, ContainingAnns(cfg, doc)[i])
  {
    CoveringZero(ContainingAnns(cfg, doc), a);
    ContainedVisitsMembers(ContainingAnns(cfg, doc), InputAnns(cfg, doc), a);
  }

  /** An input annotation inside the spans of two containing annotations is
      visited (at least) twice. */
  lemma SelectVisitsTwice(cfg: Config, doc: Document, a: Annotation, i: nat, j: nat)
    requires cfg.inputType != "" && cfg.containingType != "" && doc.WellFormed()
    requires a in InputAnns(cfg, doc)
    requires i < j < |ContainingAnns(cfg, doc)|
    requires Within(a, ContainingAnns(cfg, doc)[i]) && Within(a, ContainingAnns(cfg, doc)[j])
    ensures multiset(Select(cfg, doc).value)[a] >= 2
  {
    var anns := InputAnns(cfg, doc);
    assert Distinct(InputSet(cfg, doc)) by {
      if cfg.inputASName != "" && cfg.inputASName in doc.namedSets {
        assert InputSet(cfg, doc) == doc.namedSets[cfg.inputASName];
      }
    }
    assert Distinct(anns);
    ContainedVisitsCount(ContainingAnns(cfg, doc), anns, a);
    CoveringTwo(ContainingAnns(cfg, doc), a, i, j);
  }

  /** With the declared defaults, process visits every "Lookup" annotation of
      the default set once, in the set's order. */
  lemma DefaultsVisitLookups(file: DbFile, doc: Document)
    ensures Select(Defaults(file), doc) == Ok(OfType(doc.defaultSet, "Lookup"))
  {
  }
}
