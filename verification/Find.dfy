/**
 kubectl aibom find (cmd/kubectl-aibom/find.go): a three-valued search.  An AIBOM whose document
 cannot be read must never be silently reported as not matching.

 Case folding and trimming of digests are arbitrary functions.
 */
module Find {
  import opened CycloneDx

  /** The inline data of a document: absent, present but not decodable, or a document. */
  datatype InlineData = Missing | Undecodable | Decoded(components: seq<CdxComponent>)

  datatype Model = Model(identity: string, signed: string)

  datatype Aibom = Aibom(
    name: string,
    runtime: string,
    models: seq<Model>,
    truncated: bool,
    external: bool,
    inlined: InlineData)

  /** An empty field does not filter. */
  datatype Filter = Filter(runtime: string, model: string, image: string, digest: string, signed: string)

  /** What find needs from a document. */
  datatype Facts = Facts(images: seq<string>, digests: seq<string>, runtimes: seq<string>)

  const NO_FACTS := Facts([], [], [])

  datatype Availability = Available | Truncated | External | NoDocument | Unreadable

  /** Lower-casing, recognizing the SHA-256 algorithm name, and normalizing a wanted digest. */
  datatype Folding = Folding(lower: string -> string, isSha256: string -> bool, wanted: string -> string)

  predicate OccursAt(s: string, part: string, i: nat) {
    i + |part| <= |s| && s[i..i + |part|] == part
  }

  predicate Contains(s: string, part: string) {
    exists i: nat :: i <= |s| && OccursAt(s, part, i)
  }

  // ------------------------------------------------------------------------ reading a document

  predicate IsRuntime(c: CdxComponent, p: Property) {
    c.typ == "application" && p.name == "runtime.name" && p.value != ""
  }

  predicate IsImage(c: CdxComponent, p: Property) {
    c.typ == "container" && p.name == "image.reference" && p.value != ""
  }

  predicate IsDigest(fold: Folding, c: CdxComponent, h: Hash) {
    c.typ == "container" && fold.isSha256(h.alg) && h.value != ""
  }

  /** The component has a property of this name and non-empty value. */
  ghost predicate HasProperty(c: CdxComponent, typ: string, name: string, v: string) {
    c.typ == typ && v != "" && Property(name, v) in c.properties
  }

  /** The facts are exactly those the document states: the runtimes its applications name, the images
      its containers name, and the SHA-256 digests of its containers, folded. */
  ghost predicate FactsOf(fold: Folding, cs: seq<CdxComponent>, facts: Facts) {
    && (forall v :: v in facts.runtimes <==> exists c :: c in cs && HasProperty(c, "application", "runtime.name", v))
    && (forall v :: v in facts.images <==> exists c :: c in cs && HasProperty(c, "container", "image.reference", v))
    && (forall v :: v in facts.digests <==>
         exists c, h :: c in cs && h in c.hashes && c.typ == "container" && fold.isSha256(h.alg) && h.value != "" &&
           fold.lower(h.value) == v)
  }

  function PropertyValues(c: CdxComponent, ps: seq<Property>, pick: (CdxComponent, Property) -> bool): (vs: seq<string>)
    ensures forall v :: v in vs <==> exists p :: p in ps && pick(c, p) && p.value == v
  {
    if ps == [] then []
    else
      var rest := PropertyValues(c, ps[..|ps| - 1], pick);
      var last := ps[|ps| - 1];
      assert forall p :: p in ps <==> p in ps[..|ps| - 1] || p == last;
      if pick(c, last) then rest + [last.value] else rest
  }

  function DigestValues(fold: Folding, c: CdxComponent, hs: seq<Hash>): (vs: seq<string>)
    ensures forall v :: v in vs <==> exists h :: h in hs && IsDigest(fold, c, h) && fold.lower(h.value) == v
  {
    if hs == [] then []
    else
      var rest := DigestValues(fold, c, hs[..|hs| - 1]);
      var last := hs[|hs| - 1];
      assert forall h :: h in hs <==> h in hs[..|hs| - 1] || h == last;
      if IsDigest(fold, c, last) then rest + [fold.lower(last.value)] else rest
  }

  /** The facts of one more component. */
  function Extend(fold: Folding, facts: Facts, c: CdxComponent): Facts {
    Facts(
      facts.images + PropertyValues(c, c.properties, IsImage),
      facts.digests + DigestValues(fold, c, c.hashes),
      facts.runtimes + PropertyValues(c, c.properties, IsRuntime))
  }

  lemma ValuesExact(c: CdxComponent, v: string)
    ensures v in PropertyValues(c, c.properties, IsRuntime) <==> HasProperty(c, "application", "runtime.name", v)
    ensures v in PropertyValues(c, c.properties, IsImage) <==> HasProperty(c, "container", "image.reference", v)
  {
    if v in PropertyValues(c, c.properties, IsRuntime) {
      var p :| p in c.properties && IsRuntime(c, p) && p.value == v;
      assert p == Property("runtime.name", v);
    }
    if v in PropertyValues(c, c.properties, IsImage) {
      var p :| p in c.properties && IsImage(c, p) && p.value == v;
      assert p == Property("image.reference", v);
    }
    assert HasProperty(c, "application", "runtime.name", v) ==> IsRuntime(c, Property("runtime.name", v));
    assert HasProperty(c, "container", "image.reference", v) ==> IsImage(c, Property("image.reference", v));
  }

  lemma ExtendStates(fold: Folding, cs: seq<CdxComponent>, facts: Facts, c: CdxComponent)
    requires FactsOf(fold, cs, facts)
    ensures FactsOf(fold, cs + [c], Extend(fold, facts, c))
  {
    assert forall x :: x in cs + [c] <==> x in cs || x == c;
    forall v
      ensures v in PropertyValues(c, c.properties, IsRuntime) <==> HasProperty(c, "application", "runtime.name", v)
      ensures v in PropertyValues(c, c.properties, IsImage) <==> HasProperty(c, "container", "image.reference", v)
    {
      ValuesExact(c, v);
    }
  }

  /** Every document states some facts. */
  lemma {:induction false} FactsExist(fold: Folding, cs: seq<CdxComponent>) returns (facts: Facts)
    ensures FactsOf(fold, cs, facts)
  {
    facts := NO_FACTS;
    if cs != [] {
      var n := |cs| - 1;
      facts := FactsExist(fold, cs[..n]);
      ExtendStates(fold, cs[..n], facts, cs[n]);
      assert cs[..n] + [cs[n]] == cs;
      facts := Extend(fold, facts, cs[n]);
    }
  }

  method CollectFacts(fold: Folding, cs: seq<CdxComponent>) returns (facts: Facts)
    ensures FactsOf(fold, cs, facts)
  {
    facts := NO_FACTS;
    for i := 0 to |cs|
      invariant FactsOf(fold, cs[..i], facts)
    {
      ExtendStates(fold, cs[..i], facts, cs[i]);
      assert cs[..i + 1] == cs[..i] + [cs[i]];
      facts := Extend(fold, facts, cs[i]);
    }
    assert cs[..|cs|] == cs;
  }

  function Reading(u: Aibom): Availability {
    if u.truncated then Truncated
    else match u.inlined
      case Missing => if u.external then External else NoDocument
      case Undecodable => Unreadable
      case Decoded(_) => Available
  }

  method InlineContainers(fold: Folding, u: Aibom) returns (facts: Facts, availability: Availability)
    ensures availability == Reading(u)
    ensures availability.Available? <==> !u.truncated && u.inlined.Decoded?
    ensures availability.Truncated? <==> u.truncated
    ensures availability.External? <==> !u.truncated && u.inlined.Missing? && u.external
    ensures availability.NoDocument? <==> !u.truncated && u.inlined.Missing? && !u.external
    ensures availability.Available? ==> FactsOf(fold, u.inlined.components, facts)
    ensures !availability.Available? ==> facts == NO_FACTS
  {
    if u.truncated {
      return NO_FACTS, Truncated;
    }
    match u.inlined {
      case Missing => return NO_FACTS, if u.external then External else NoDocument;
      case Undecodable => return NO_FACTS, Unreadable;
      case Decoded(cs) =>
        facts := CollectFacts(fold, cs);
        return facts, Available;
    }
  }

  // ------------------------------------------------------------------------ the meaning of a filter

  /** A full digest is matched as it is, a shorter one as a prefix; nothing matches an empty one. */
  ghost predicate DigestMatches(fold: Folding, want: string, have: seq<string>) {
    var w := fold.wanted(want);
    && w != ""
    && (|w| == 64 ==> w in have)
    && (|w| != 64 ==> exists h :: h in have && |w| <= |h| && h[..|w|] == w)
  }

  ghost predicate SomeContains(items: seq<string>, part: string) {
    exists i :: 0 <= i < |items| && Contains(items[i], part)
  }

  /** A model without a state counts as unsigned. */
  ghost predicate IsSigned(m: Model, state: string) { m.signed == state || (m.signed == "" && state == "unsigned") }

  ghost predicate SummaryMatches(u: Aibom, f: Filter) {
    && (f.model != "" ==>
         exists i :: 0 <= i < |u.models| && u.models[i].identity != "" && Contains(u.models[i].identity, f.model))
    && (f.signed != "" ==> exists i :: 0 <= i < |u.models| && IsSigned(u.models[i], f.signed))
  }

  ghost predicate RuntimeMatches(u: Aibom, facts: Facts, f: Filter) {
    f.runtime == "" || u.runtime == f.runtime || f.runtime in facts.runtimes
  }

  ghost predicate DocumentMatches(fold: Folding, facts: Facts, f: Filter) {
    && (f.image != "" ==> SomeContains(facts.images, f.image))
    && (f.digest != "" ==> DigestMatches(fold, f.digest, facts.digests))
  }

  /** The AIBOM satisfies every filter, its document stating `facts`. */
  ghost predicate Satisfies(fold: Folding, u: Aibom, facts: Facts, f: Filter) {
    SummaryMatches(u, f) && RuntimeMatches(u, facts, f) && DocumentMatches(fold, facts, f)
  }

  /** A string contains another exactly when it is that one between two others. */
  lemma ContainsExact(s: string, part: string)
    ensures Contains(s, part) <==> exists a, b :: s == a + part + b
  {
    if i: nat :| i <= |s| && OccursAt(s, part, i) {
      assert s == s[..i] + part + s[i + |part|..];
    }
    if a, b :| s == a + part + b {
      assert OccursAt(s, part, |a|);
    }
  }

  /** Facts the AIBOM's document could state: those it does state when it is readable, otherwise
      those some document states. */
  ghost predicate Possible(fold: Folding, u: Aibom, facts: Facts) {
    if Reading(u).Available? then FactsOf(fold, u.inlined.components, facts)
    else exists cs :: FactsOf(fold, cs, facts)
  }

  lemma SomeAgree(a: seq<string>, b: seq<string>, part: string)
    requires SomeContains(a, part) && forall v :: v in a ==> v in b
    ensures SomeContains(b, part)
  {
    var i :| 0 <= i < |a| && Contains(a[i], part);
    assert a[i] in a;
    var j :| 0 <= j < |b| && b[j] == a[i];
  }

  /** The facts of a readable document are determined up to order and repetition. */
  lemma PossibleAgree(fold: Folding, u: Aibom, a: Facts, b: Facts, f: Filter)
    requires Reading(u).Available? && Possible(fold, u, a) && Possible(fold, u, b)
    ensures Satisfies(fold, u, a, f) == Satisfies(fold, u, b, f)
  {
    assert forall v :: v in a.images <==> v in b.images;
    assert forall v :: v in a.digests <==> v in b.digests;
    assert forall v :: v in a.runtimes <==> v in b.runtimes;
    if SomeContains(a.images, f.image) { SomeAgree(a.images, b.images, f.image); }
    if SomeContains(b.images, f.image) { SomeAgree(b.images, a.images, f.image); }
  }

  lemma OneMeaning(fold: Folding, u: Aibom, a: Facts, f: Filter)
    requires Reading(u).Available? ==> Possible(fold, u, a)
    ensures Reading(u).Available? ==> forall b :: Possible(fold, u, b) ==>
      Satisfies(fold, u, b, f) == Satisfies(fold, u, a, f)
  {
    if Reading(u).Available? {
      forall b | Possible(fold, u, b)
        ensures Satisfies(fold, u, b, f) == Satisfies(fold, u, a, f)
      {
        PossibleAgree(fold, u, a, b, f);
      }
    }
  }

  // ------------------------------------------------------------------------ the search

  datatype Verdict = Shown | Named | LeftOut

  /** What becomes of a row: shown, left out but named in the runtime warning, or left out. */
  ghost predicate Explained(fold: Folding, u: Aibom, f: Filter, v: Verdict) {
    && (v.LeftOut? ==> forall facts :: Possible(fold, u, facts) ==> !Satisfies(fold, u, facts, f))
    && (v.Shown? && Reading(u).Available? ==> forall facts :: Possible(fold, u, facts) ==> Satisfies(fold, u, facts, f))
    && (v.Shown? && !Reading(u).Available? ==> SummaryMatches(u, f) && (f.runtime == "" || u.runtime == f.runtime))
    && (v.Named? <==> !Reading(u).Available? && SummaryMatches(u, f) && f.runtime != "" && u.runtime != f.runtime)
  }

  method DigestHit(fold: Folding, want: string, have: seq<string>) returns (hit: bool)
    ensures hit <==> DigestMatches(fold, want, have)
  {
    var w := fold.wanted(want);
    if w == "" {
      return false;
    }
    for i := 0 to |have|
      invariant forall j :: 0 <= j < i ==> if |w| == 64 then have[j] != w else !(w <= have[j])
    {
      if |w| == 64 {
        if have[i] == w {
          return true;
        }
      } else if w <= have[i] {
        return true;
      }
    }
    return false;
  }

  method ImageHit(images: seq<string>, part: string) returns (hit: bool)
    ensures hit <==> SomeContains(images, part)
  {
    for i := 0 to |images|
      invariant forall j :: 0 <= j < i ==> !Contains(images[j], part)
    {
      if Contains(images[i], part) {
        return true;
      }
    }
    return false;
  }

  method ModelHit(models: seq<Model>, part: string) returns (hit: bool)
    ensures hit <==> exists i :: 0 <= i < |models| && models[i].identity != "" && Contains(models[i].identity, part)
  {
    for i := 0 to |models|
      invariant forall j :: 0 <= j < i ==> models[j].identity == "" || !Contains(models[j].identity, part)
    {
      if models[i].identity != "" && Contains(models[i].identity, part) {
        return true;
      }
    }
    return false;
  }

  method SignedHit(models: seq<Model>, want: string) returns (hit: bool)
    requires want != ""
    ensures hit <==> exists i :: 0 <= i < |models| && IsSigned(models[i], want)
  {
    for i := 0 to |models|
      invariant forall j :: 0 <= j < i ==> !IsSigned(models[j], want)
    {
      var state := if models[i].signed == "" then "unsigned" else models[i].signed;
      if state == want {
        return true;
      }
    }
    return false;
  }

  method FindMatch(fold: Folding, u: Aibom, f: Filter) returns (matched: bool, availability: Availability)
    ensures Explained(fold, u, f, if matched then Shown else if availability.Available? then LeftOut else Named)
    ensures matched ==> availability == Reading(u)
  {
    var facts, read := InlineContainers(fold, u);
    OneMeaning(fold, u, facts, f);
    var runtimeUnchecked := false;
    if f.runtime != "" && !(u.runtime == f.runtime || f.runtime in facts.runtimes) {
      if read == Available {
        return false, Available;
      }
      runtimeUnchecked := true;
    }
    if f.model != "" {
      var hit := ModelHit(u.models, f.model);
      if !hit {
        return false, Available;
      }
    }
    if f.signed != "" {
      var hit := SignedHit(u.models, f.signed);
      if !hit {
        return false, Available;
      }
    }
    if runtimeUnchecked {
      return false, read;
    }
    if (f.image != "" || f.digest != "") && read != Available {
      return true, read;
    }
    if f.image != "" {
      var hit := ImageHit(facts.images, f.image);
      if !hit {
        return false, Available;
      }
    }
    if f.digest != "" {
      var hit := DigestHit(fold, f.digest, facts.digests);
      if !hit {
        return false, Available;
      }
    }
    return true, read;
  }

  /** Indices below `n`, in order. */
  predicate Increasing(s: seq<nat>, n: nat) {
    && (forall i :: 0 <= i < |s| ==> s[i] < n)
    && (forall i, j :: 0 <= i < j < |s| ==> s[i] < s[j])
  }

  /** Every row is explained.  The rows shown, the shown rows whose document could not be read, and
      the rows named in the runtime warning are listed in order, each once. */
  method RunFind(fold: Folding, items: seq<Aibom>, f: Filter)
      returns (verdicts: seq<Verdict>, shown: seq<nat>, unread: seq<nat>, named: seq<nat>)
    ensures |verdicts| == |items| && forall i :: 0 <= i < |items| ==> Explained(fold, items[i], f, verdicts[i])
    ensures forall i: nat :: i in shown <==> i < |items| && verdicts[i].Shown?
    ensures forall i: nat :: i in unread <==> i < |items| && verdicts[i].Shown? && !Reading(items[i]).Available?
    ensures forall i: nat :: i in named <==> i < |items| && verdicts[i].Named?
    ensures Increasing(shown, |items|) && Increasing(unread, |items|) && Increasing(named, |items|)
  {
    verdicts, shown, unread, named := [], [], [], [];
    for i := 0 to |items|
      invariant |verdicts| == i && forall j :: 0 <= j < i ==> Explained(fold, items[j], f, verdicts[j])
      invariant forall j: nat :: j in shown <==> j < i && verdicts[j].Shown?
      invariant forall j: nat :: j in unread <==> j < i && verdicts[j].Shown? && !Reading(items[j]).Available?
      invariant forall j: nat :: j in named <==> j < i && verdicts[j].Named?
      invariant Increasing(shown, i) && Increasing(unread, i) && Increasing(named, i)
    {
      var matched, availability := FindMatch(fold, items[i], f);
      if matched {
        verdicts, shown := verdicts + [Shown], shown + [i];
        if availability != Available {
          unread := unread + [i];
        }
      } else if availability != Available {
        verdicts, named := verdicts + [Named], named + [i];
      } else {
        verdicts := verdicts + [LeftOut];
      }
    }
  }

  lemma ContainsItself(s: string)
    ensures Contains(s, s)
  {
    assert OccursAt(s, s, 0);
  }

  const SHA256 := "SHA-256"

  /** Folding as the command does it: the algorithm name is recognized, and a wanted digest is
      already folded. */
  ghost predicate Folds(fold: Folding) {
    fold.isSha256(SHA256) && forall d :: fold.lower(fold.wanted(d)) == fold.wanted(d)
  }

  /** A document that states what the filter asks for. */
  function Answering(fold: Folding, f: Filter): seq<CdxComponent> {
    var runtime, image := Property("runtime.name", f.runtime), Property("image.reference", f.image);
    [ CdxComponent("1", "application", "app", "", "", [], [runtime], []),
      CdxComponent("2", "container", "image", "", "", [Hash(SHA256, fold.wanted(f.digest))], [image], []) ]
  }

  lemma AnsweringStates(fold: Folding, f: Filter, facts: Facts)
    requires Folds(fold) && FactsOf(fold, Answering(fold, f), facts)
    ensures f.runtime != "" ==> f.runtime in facts.runtimes
    ensures f.image != "" ==> f.image in facts.images
    ensures fold.wanted(f.digest) != "" ==> fold.wanted(f.digest) in facts.digests
  {
    var cs := Answering(fold, f);
    var app, container := cs[0], cs[1];
    assert app in cs && container in cs;
    assert app.properties[0] in app.properties && container.properties[0] in container.properties;
    assert container.hashes[0] in container.hashes;
  }

  lemma AnsweringMatches(fold: Folding, f: Filter, facts: Facts)
    requires Folds(fold) && FactsOf(fold, Answering(fold, f), facts)
    requires f.digest != "" ==> fold.wanted(f.digest) != ""
    ensures DocumentMatches(fold, facts, f) && (f.runtime != "" ==> f.runtime in facts.runtimes)
  {
    AnsweringStates(fold, f, facts);
    ContainsItself(f.image);
    var w := fold.wanted(f.digest);
    assert w <= w;
  }

  /** For every filter whose digest is well formed, an explained row is left out without a word
      exactly when no document the AIBOM could have satisfies the filter. */
  lemma LeftOutExactly(fold: Folding, u: Aibom, f: Filter, v: Verdict)
    requires Explained(fold, u, f, v) && Folds(fold)
    requires f.digest != "" ==> fold.wanted(f.digest) != ""
    ensures v.LeftOut? <==> !exists facts :: Possible(fold, u, facts) && Satisfies(fold, u, facts, f)
  {
    if !v.LeftOut? {
      if Reading(u).Available? {
        var facts := FactsExist(fold, u.inlined.components);
        assert Possible(fold, u, facts);
        assert Satisfies(fold, u, facts, f);
      } else {
        var facts := FactsExist(fold, Answering(fold, f));
        AnsweringMatches(fold, f, facts);
        assert Possible(fold, u, facts);
        assert Satisfies(fold, u, facts, f);
      }
    }
  }
}
