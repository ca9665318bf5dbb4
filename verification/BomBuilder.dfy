/**
 Building the CycloneDX component tree (internal/bom/builder.go): every component is translated, or
 the document is refused, and the result does not depend on the order in which maps are iterated.
 */
module BomBuilder {
  import opened Common
  import opened Components
  import opened CycloneDx
  import opened Text
  import opened BomRefs

  /** Redacted text, and the note of what was redacted in a component, "" for nothing. */
  datatype Redaction = Redaction(text: Redact, note: Component -> string)

  const REDACTION_KEY := "aibom.redaction.applied"

  function Redacted(r: Redaction, c: Component): Component {
    var props := map k | k in c.properties :: r.text(c.properties[k]);
    c.(name := r.text(c.name), version := r.text(c.version), purl := r.text(c.purl), locator := r.text(c.locator),
       properties := if r.note(c) == "" then props else props[REDACTION_KEY := r.note(c)])
  }

  // ------------------------------------------------------------------------------ sorted keys

  ghost predicate StrictlySorted(ks: seq<string>) {
    forall i, j :: 0 <= i < j < |ks| ==> Less(ks[i], ks[j])
  }

  /** The keys of a set, each once, in lexical order. */
  ghost predicate Lists(ks: seq<string>, s: set<string>) {
    StrictlySorted(ks) && forall k :: k in ks <==> k in s
  }

  function Inserted(ks: seq<string>, k: string): seq<string> {
    if ks == [] || Less(k, ks[0]) then [k] + ks else [ks[0]] + Inserted(ks[1..], k)
  }

  lemma {:induction false} InsertedLists(ks: seq<string>, k: string, s: set<string>)
    requires Lists(ks, s) && k !in s
    ensures Lists(Inserted(ks, k), s + {k})
  {
    if ks != [] {
      var first, rest := ks[0], ks[1..];
      LessTrichotomy(k, first);
      assert ks == [first] + rest;
      if Less(k, first) {
        forall i | 0 <= i < |rest|
          ensures Less(k, rest[i])
        {
          LessTransitive(k, first, rest[i]);
        }
      } else {
        LessTrichotomy(first, first);
        assert forall i :: 0 <= i < |rest| ==> Less(first, rest[i]);
        assert Lists(rest, s - {first});
        InsertedLists(rest, k, s - {first});
        var below := Inserted(rest, k);
        assert forall i :: 0 <= i < |below| ==> below[i] in (s - {first}) + {k};
        assert forall i :: 0 <= i < |below| ==> below[i] in rest || below[i] == k;
      }
    }
  }

  lemma SomeKey(ks: seq<string>)
    ensures ks != [] ==> exists k :: k in ks
  {
    if ks != [] { assert ks[0] in ks; }
  }

  /** A set has one listing. */
  lemma {:induction false} ListingUnique(a: seq<string>, b: seq<string>, s: set<string>)
    requires Lists(a, s) && Lists(b, s)
    ensures a == b
    decreases |a|
  {
    SomeKey(a);
    SomeKey(b);
    if a != [] && b != [] {
      assert a[0] in s && a[0] in b && b[0] in s && b[0] in a;
      LessTrichotomy(a[0], b[0]);
      LessTrichotomy(a[0], a[0]);
      assert a[0] == b[0];
      assert a == [a[0]] + a[1..] && b == [b[0]] + b[1..];
      ListingUnique(a[1..], b[1..], s - {a[0]});
    }
  }

  /** The keys are listed whatever the order the map is iterated in. */
  method SortedKeys(m: map<string, string>) returns (ks: seq<string>)
    ensures Lists(ks, m.Keys)
  {
    ks := [];
    var todo := m.Keys;
    while todo != {}
      invariant todo <= m.Keys && Lists(ks, m.Keys - todo)
      decreases todo
    {
      var k :| k in todo;
      InsertedLists(ks, k, m.Keys - todo);
      assert m.Keys - (todo - {k}) == (m.Keys - todo) + {k};
      ks, todo := Inserted(ks, k), todo - {k};
    }
  }

  ghost function Listing(s: set<string>): (ks: seq<string>)
    ensures Lists(ks, s)
  {
    if s == {} then []
    else
      var k :| k in s;
      InsertedLists(Listing(s - {k}), k, s - {k});
      assert s == s - {k} + {k};
      Inserted(Listing(s - {k}), k)
  }

  // ------------------------------------------------------------------------------ one component

  function HashAlgorithm(key: string): Option<string> {
    match key
    case "sha256" => Some("SHA-256")
    case "sha384" => Some("SHA-384")
    case "sha512" => Some("SHA-512")
    case "sha1" => Some("SHA-1")
    case "md5" => Some("MD5")
    case _ => None
  }

  predicate KnownHashes(hashes: map<string, string>) {
    forall k :: k in hashes ==> HashAlgorithm(k).Some?
  }

  function HashesOf(ks: seq<string>, hashes: map<string, string>): seq<Hash>
    requires forall k :: k in ks ==> k in hashes && HashAlgorithm(k).Some?
  {
    if ks == [] then []
    else
      var n := |ks| - 1;
      HashesOf(ks[..n], hashes) + [Hash(HashAlgorithm(ks[n]).value, hashes[ks[n]])]
  }

  /** Fails on the first key that names no known algorithm. */
  method MapHashes(hashes: map<string, string>) returns (out: Result<seq<Hash>>)
    ensures out.Ok? <==> KnownHashes(hashes)
    ensures out.Ok? ==> out.value == HashesOf(Listing(hashes.Keys), hashes)
  {
    var ks := SortedKeys(hashes);
    var hs: seq<Hash> := [];
    for i := 0 to |ks|
      invariant forall k :: k in ks[..i] ==> HashAlgorithm(k).Some?
      invariant hs == HashesOf(ks[..i], hashes)
    {
      assert ks[i] in hashes;
      if HashAlgorithm(ks[i]) == None {
        return Err("unknown hash algorithm key");
      }
      assert ks[..i + 1][..i] == ks[..i];
      hs := hs + [Hash(HashAlgorithm(ks[i]).value, hashes[ks[i]])];
    }
    assert ks[..|ks|] == ks;
    ListingUnique(ks, Listing(hashes.Keys), hashes.Keys);
    return Ok(hs);
  }

  function NonEmpty(ps: seq<Property>): seq<Property> {
    if ps == [] then []
    else NonEmpty(ps[..|ps| - 1]) + if ps[|ps| - 1].value == "" then [] else [ps[|ps| - 1]]
  }

  function Trail(c: Component): seq<Property> {
    [ Property("aibom.confidence", c.confidence),
      Property("aibom.evidence.source", c.source),
      Property("aibom.evidence.locator", c.locator) ]
  }

  function OwnProperties(ks: seq<string>, properties: map<string, string>): seq<Property>
    requires forall k :: k in ks ==> k in properties
  {
    if ks == [] then []
    else
      var n := |ks| - 1;
      OwnProperties(ks[..n], properties) + [Property(ks[n], properties[ks[n]])]
  }

  method FilterProperties(ps: seq<Property>) returns (out: seq<Property>)
    ensures out == NonEmpty(ps)
  {
    out := [];
    for i := 0 to |ps|
      invariant out == NonEmpty(ps[..i])
    {
      assert ps[..i + 1][..i] == ps[..i];
      if ps[i].value != "" {
        out := out + [ps[i]];
      }
    }
    assert ps[..|ps|] == ps;
  }

  /** The evidence trail first, then the component's own properties by name; empty values dropped. */
  method ListProperties(c: Component) returns (ps: seq<Property>)
    ensures ps == NonEmpty(Trail(c) + OwnProperties(Listing(c.properties.Keys), c.properties))
  {
    var ks := SortedKeys(c.properties);
    var all := Trail(c);
    for i := 0 to |ks|
      invariant all == Trail(c) + OwnProperties(ks[..i], c.properties)
    {
      assert ks[i] in c.properties && ks[..i + 1][..i] == ks[..i];
      all := all + [Property(ks[i], c.properties[ks[i]])];
    }
    assert ks[..|ks|] == ks;
    ListingUnique(ks, Listing(c.properties.Keys), c.properties.Keys);
    ps := FilterProperties(all);
  }

  function MapType(typ: string): string {
    if typ == CONTAINER || typ == ML_MODEL || typ == DATA then typ else APPLICATION
  }

  // ------------------------------------------------------------------------------ the tree

  /** Every hash in the forest names a known algorithm. */
  ghost predicate Buildable(cs: seq<Component>)
    decreases cs
  {
    forall i :: 0 <= i < |cs| ==> KnownHashes(cs[i].hashes) && Buildable(cs[i].children)
  }

  /** What component `i` of its siblings becomes. */
  ghost function Built(w: Workload, r: Redaction, c: Component, i: nat, parent: string): CdxComponent
    requires KnownHashes(c.hashes) && Buildable(c.children)
    decreases c
  {
    var d := Redacted(r, c);
    var ref := ComponentRef(w, r.text, c, i, parent);
    CdxComponent(ref, MapType(d.typ), d.name, d.version, d.purl,
                 HashesOf(Listing(d.hashes.Keys), d.hashes),
                 NonEmpty(Trail(d) + OwnProperties(Listing(d.properties.Keys), d.properties)),
                 BuiltAll(w, r, c.children, ref))
  }

  ghost function BuiltAll(w: Workload, r: Redaction, cs: seq<Component>, parent: string): seq<CdxComponent>
    requires Buildable(cs)
    decreases cs
  {
    seq(|cs|, i requires 0 <= i < |cs| => Built(w, r, cs[i], i, parent))
  }

  ghost predicate IsBuilt(w: Workload, r: Redaction, c: Component, i: nat, parent: string, b: CdxComponent) {
    KnownHashes(c.hashes) && Buildable(c.children) && b == Built(w, r, c, i, parent)
  }

  ghost predicate BuiltUpTo(w: Workload, r: Redaction, cs: seq<Component>, parent: string, built: seq<CdxComponent>,
                            n: nat) {
    |built| == n <= |cs| && forall i: nat :: i < n ==> IsBuilt(w, r, cs[i], i, parent, built[i])
  }

  lemma BuiltOneMore(w: Workload, r: Redaction, cs: seq<Component>, parent: string, built: seq<CdxComponent>, n: nat,
                     b: CdxComponent)
    requires n < |cs| && BuiltUpTo(w, r, cs, parent, built, n) && IsBuilt(w, r, cs[n], n, parent, b)
    ensures BuiltUpTo(w, r, cs, parent, built + [b], n + 1)
  {
    var more := built + [b];
    forall i: nat | i < n + 1
      ensures IsBuilt(w, r, cs[i], i, parent, more[i])
    {
      if i < n { assert more[i] == built[i]; }
    }
  }

  /** The document is refused exactly when some component, at any depth, has a hash of an unknown
      algorithm; otherwise the tree is the one determined by the components, the redaction and the
      parent alone. */
  method BuildComponents(w: Workload, r: Redaction, cs: seq<Component>, parent: string)
      returns (out: Result<seq<CdxComponent>>)
    ensures out.Ok? <==> Buildable(cs)
    ensures out.Ok? ==> out.value == BuiltAll(w, r, cs, parent)
    decreases cs, 1
  {
    var built: seq<CdxComponent> := [];
    for i := 0 to |cs|
      invariant BuiltUpTo(w, r, cs, parent, built, i)
    {
      var c := ToCdxComponent(w, r, cs[i], i, parent);
      if c.Err? {
        return Err(c.error);
      }
      BuiltOneMore(w, r, cs, parent, built, i, c.value);
      built := built + [c.value];
    }
    assert built == BuiltAll(w, r, cs, parent);
    return Ok(built);
  }

  method ToCdxComponent(w: Workload, r: Redaction, c: Component, i: nat, parent: string)
      returns (out: Result<CdxComponent>)
    ensures out.Ok? <==> KnownHashes(c.hashes) && Buildable(c.children)
    ensures out.Ok? ==> out.value == Built(w, r, c, i, parent)
    decreases c, 0
  {
    var d := Redacted(r, c);
    var ref := ComponentRef(w, r.text, c, i, parent);
    var hashes := MapHashes(d.hashes);
    if hashes.Err? {
      return Err(hashes.error);
    }
    var properties := ListProperties(d);
    var children := BuildComponents(w, r, d.children, ref);
    if children.Err? {
      return Err(children.error);
    }
    return Ok(CdxComponent(ref, MapType(d.typ), d.name, d.version, d.purl, hashes.value, properties, children.value));
  }

  // ------------------------------------------------------------------------------ what a tree says

  function RefsOf(cs: seq<CdxComponent>): seq<string>
    decreases cs
  {
    if cs == [] then []
    else
      var last := cs[|cs| - 1];
      RefsOf(cs[..|cs| - 1]) + [last.ref] + RefsOf(last.components)
  }

  lemma RefsOfMore(built: seq<CdxComponent>, n: nat)
    requires n < |built|
    ensures RefsOf(built[..n + 1]) == RefsOf(built[..n]) + [built[n].ref] + RefsOf(built[n].components)
  {
    assert built[..n + 1][..n] == built[..n];
  }

  lemma RefsMore(w: Workload, redact: Redact, cs: seq<Component>, parent: string, n: nat)
    requires n < |cs|
    ensures
      var ref := ComponentRef(w, redact, cs[n], n, parent);
      Refs(w, redact, cs[..n + 1], parent) ==
        Refs(w, redact, cs[..n], parent) + [ref] + Refs(w, redact, cs[n].children, ref)
  {
    assert cs[..n + 1][..n] == cs[..n];
  }

  lemma BuiltPlace(w: Workload, r: Redaction, cs: seq<Component>, parent: string, i: nat)
    requires Buildable(cs) && i < |cs|
    ensures
      var b, ref := BuiltAll(w, r, cs, parent)[i], ComponentRef(w, r.text, cs[i], i, parent);
      b.ref == ref && b.components == BuiltAll(w, r, cs[i].children, ref)
  {
  }

  lemma {:induction false} BuiltRefsUpTo(w: Workload, r: Redaction, cs: seq<Component>, parent: string, n: nat)
    requires Buildable(cs) && n <= |cs|
    ensures RefsOf(BuiltAll(w, r, cs, parent)[..n]) == Refs(w, r.text, cs[..n], parent)
    decreases cs, n
  {
    if n > 0 {
      var built, i := BuiltAll(w, r, cs, parent), n - 1;
      RefsOfMore(built, i);
      RefsMore(w, r.text, cs, parent, i);
      BuiltPlace(w, r, cs, parent, i);
      BuiltRefsUpTo(w, r, cs, parent, i);
      BuiltRefs(w, r, cs[i].children, ComponentRef(w, r.text, cs[i], i, parent));
    }
  }

  lemma {:induction false} BuiltRefs(w: Workload, r: Redaction, cs: seq<Component>, parent: string)
    requires Buildable(cs)
    ensures RefsOf(BuiltAll(w, r, cs, parent)) == Refs(w, r.text, cs, parent)
    decreases cs, |cs| + 1
  {
    BuiltRefsUpTo(w, r, cs, parent, |cs|);
    var built := BuiltAll(w, r, cs, parent);
    assert built[..|cs|] == built && cs[..|cs|] == cs;
  }

  /** Every reference of a built document, the workload's own among them, is unique. */
  lemma BuiltRefsDistinct(w: Workload, r: Redaction, cs: seq<Component>)
    requires Buildable(cs)
    ensures AllDistinct([WorkloadRef(w)] + RefsOf(BuiltAll(w, r, cs, "")))
  {
    BuiltRefs(w, r, cs, "");
    DocumentRefsDistinct(w, r.text, cs);
  }

  /** One hash per key, and no other. */
  lemma {:induction false} HashesExact(ks: seq<string>, hashes: map<string, string>)
    requires forall k :: k in ks ==> k in hashes && HashAlgorithm(k).Some?
    ensures |HashesOf(ks, hashes)| == |ks|
    ensures forall i :: 0 <= i < |ks| ==> HashesOf(ks, hashes)[i] == Hash(HashAlgorithm(ks[i]).value, hashes[ks[i]])
  {
    if ks != [] { HashesExact(ks[..|ks| - 1], hashes); }
  }

  lemma {:induction false} NonEmptyExact(ps: seq<Property>)
    ensures forall p :: p in NonEmpty(ps) <==> p in ps && p.value != ""
  {
    if ps != [] {
      NonEmptyExact(ps[..|ps| - 1]);
      assert ps == ps[..|ps| - 1] + [ps[|ps| - 1]];
    }
  }

  lemma {:induction false} OwnExact(ks: seq<string>, properties: map<string, string>)
    requires forall k :: k in ks ==> k in properties
    ensures forall p :: p in OwnProperties(ks, properties) <==> p.name in ks && p.value == properties[p.name]
  {
    if ks != [] {
      OwnExact(ks[..|ks| - 1], properties);
      assert ks == ks[..|ks| - 1] + [ks[|ks| - 1]];
    }
  }

  /** The algorithms known by their keys, and no other. */
  lemma AlgorithmsExact(key: string)
    ensures HashAlgorithm("sha256") == Some("SHA-256") && HashAlgorithm("sha384") == Some("SHA-384")
    ensures HashAlgorithm("sha512") == Some("SHA-512") && HashAlgorithm("sha1") == Some("SHA-1")
    ensures HashAlgorithm("md5") == Some("MD5")
    ensures HashAlgorithm(key).Some? <==> key in {"sha256", "sha384", "sha512", "sha1", "md5"}
  {
  }

  /** What redaction leaves of a property: its redacted value, or the note of what was redacted. */
  ghost predicate RedactedProperty(r: Redaction, c: Component, p: Property) {
    if p.name == "aibom.redaction.applied" && r.note(c) != "" then p.value == r.note(c)
    else p.name in c.properties && p.value == r.text(c.properties[p.name])
  }

  /** Exactly the hashes of the source. */
  lemma BuiltHashes(w: Workload, r: Redaction, c: Component, i: nat, parent: string)
    requires KnownHashes(c.hashes) && Buildable(c.children)
    ensures
      var b := Built(w, r, c, i, parent);
      forall h :: h in b.hashes <==> exists k :: k in c.hashes && h == Hash(HashAlgorithm(k).value, c.hashes[k])
  {
    var b, ks := Built(w, r, c, i, parent), Listing(c.hashes.Keys);
    HashesExact(ks, c.hashes);
    assert b.hashes == HashesOf(ks, c.hashes);
    forall k | k in c.hashes
      ensures Hash(HashAlgorithm(k).value, c.hashes[k]) in b.hashes
    {
      var j :| 0 <= j < |ks| && ks[j] == k;
      assert b.hashes[j] in b.hashes;
    }
  }

  lemma OwnRedacted(r: Redaction, c: Component, p: Property)
    ensures
      var d := Redacted(r, c);
      p in OwnProperties(Listing(d.properties.Keys), d.properties) <==> RedactedProperty(r, c, p)
  {
    var d := Redacted(r, c);
    OwnExact(Listing(d.properties.Keys), d.properties);
  }

  /** Exactly the non-empty values of the evidence trail and of the redacted properties. */
  lemma BuiltProperties(w: Workload, r: Redaction, c: Component, i: nat, parent: string)
    requires KnownHashes(c.hashes) && Buildable(c.children)
    ensures
      var b := Built(w, r, c, i, parent);
      forall p :: p in b.properties <==>
        && p.value != ""
        && (|| p == Property("aibom.confidence", c.confidence)
            || p == Property("aibom.evidence.source", c.source)
            || p == Property("aibom.evidence.locator", r.text(c.locator))
            || RedactedProperty(r, c, p))
  {
    var d := Redacted(r, c);
    var own := Listing(d.properties.Keys);
    NonEmptyExact(Trail(d) + OwnProperties(own, d.properties));
    forall p: Property
      ensures p in OwnProperties(own, d.properties) <==> RedactedProperty(r, c, p)
    {
      OwnRedacted(r, c, p);
    }
  }

  /** A built component has the redacted name, version and package URL of its source, its type if that
      is one CycloneDX has and "application" otherwise, and a child for each child. */
  lemma BuiltFaithfully(w: Workload, r: Redaction, c: Component, i: nat, parent: string)
    requires KnownHashes(c.hashes) && Buildable(c.children)
    ensures
      var b := Built(w, r, c, i, parent);
      && b.ref == ComponentRef(w, r.text, c, i, parent)
      && b.name == r.text(c.name) && b.version == r.text(c.version) && b.purl == r.text(c.purl)
      && b.typ == (if c.typ in {"container", "application", "machine-learning-model", "data"} then c.typ
        else "application")
      && |b.components| == |c.children|
      && forall j :: 0 <= j < |c.children| ==> b.components[j] == Built(w, r, c.children[j], j, b.ref)
  {
  }
}
