/**
 Reference identifiers of a document (internal/bom/builder.go).  CycloneDX 1.6 (ECMA-424) requires
 every bom-ref of a document to be unique.

 Redaction is an arbitrary function of a string.
 */
module BomRefs {
  import opened Components

  // ------------------------------------------------------------------------------ decimals

  const DIGITS := "0123456789"

  function Decimal(n: nat): (s: string)
    ensures s != "" && '/' !in s
    decreases n
  {
    if n < 10 then [DIGITS[n]] else Decimal(n / 10) + [DIGITS[n % 10]]
  }

  lemma DigitsDiffer(a: nat, b: nat)
    requires a < 10 && b < 10 && DIGITS[a] == DIGITS[b]
    ensures a == b
  {
  }

  lemma {:induction false} DecimalInjective(a: nat, b: nat)
    requires Decimal(a) == Decimal(b)
    ensures a == b
    decreases a
  {
    var s, t := Decimal(a), Decimal(b);
    assert s[|s| - 1] == DIGITS[a % 10] && t[|t| - 1] == DIGITS[b % 10];
    DigitsDiffer(a % 10, b % 10);
    if a >= 10 && b >= 10 {
      assert s[..|s| - 1] == Decimal(a / 10) && t[..|t| - 1] == Decimal(b / 10);
      DecimalInjective(a / 10, b / 10);
    }
  }

  /** The number a string of digits writes. */
  ghost function NumberOf(s: string): int
  {
    if s == "" then 0 else NumberOf(s[..|s| - 1]) * 10 + (s[|s| - 1] as int - '0' as int)
  }

  lemma {:induction false} DecimalWrites(n: nat)
    ensures NumberOf(Decimal(n)) == n
  {
    var s := Decimal(n);
    if n >= 10 {
      DecimalWrites(n / 10);
      assert s[..|s| - 1] == Decimal(n / 10);
    } else {
      assert s[..0] == "";
    }
  }

  // ---------------------------------------------------------------------------- references

  datatype Workload = Workload(namespace: string, kind: string, name: string)

  function WorkloadRef(w: Workload): (r: string)
    ensures r != ""
  {
    "workload:" + w.namespace + "/" + w.kind + "/" + w.name
  }

  type Redact = string -> string

  /** The part every reference below place `i` of `base` starts with. */
  function Place(base: string, i: nat): string { base + "/component/" + Decimal(i) + "/" }

  /** An empty parent stands for the workload. */
  function Base(w: Workload, parent: string): string { if parent == "" then WorkloadRef(w) else parent }

  function ComponentRef(w: Workload, redact: Redact, c: Component, i: nat, parent: string): string {
    Place(Base(w, parent), i) + c.typ + "/" + redact(c.name)
  }

  /** All references emitted for a list of siblings and everything below them, in document order. */
  function Refs(w: Workload, redact: Redact, cs: seq<Component>, parent: string): seq<string>
    decreases cs
  {
    if cs == [] then []
    else
      var i := |cs| - 1;
      var ref := ComponentRef(w, redact, cs[i], i, parent);
      Refs(w, redact, cs[..i], parent) + [ref] + Refs(w, redact, cs[i].children, ref)
  }

  ghost predicate StartsWith(s: string, p: string) { |p| <= |s| && s[..|p|] == p }

  /** Every reference below the first `n` siblings starts with the place of one of them. */
  ghost predicate UnderPlaces(refs: seq<string>, base: string, n: nat) {
    forall r :: r in refs ==> exists i: nat :: i < n && StartsWith(r, Place(base, i))
  }

  lemma PlacesDiffer(base: string, i: nat, j: nat, r: string)
    requires StartsWith(r, Place(base, i)) && StartsWith(r, Place(base, j))
    ensures i == j
  {
    var p, q := Place(base, i), Place(base, j);
    var di, dj := Decimal(i), Decimal(j);
    var k := |base + "/component/"|;
    assert forall x :: 0 <= x < |di| ==> r[k + x] == p[k + x] == di[x];
    assert forall x :: 0 <= x < |dj| ==> r[k + x] == q[k + x] == dj[x];
    assert r[k + |di|] == p[k + |di|] == '/' && r[k + |dj|] == q[k + |dj|] == '/';
    assert |di| == |dj|;
    assert di == dj;
    DecimalInjective(i, j);
  }

  lemma StartsTransitive(r: string, p: string, q: string)
    requires StartsWith(r, p) && StartsWith(p, q)
    ensures StartsWith(r, q)
  {
    assert r[..|q|] == p[..|q|];
  }

  lemma RefAtPlace(w: Workload, redact: Redact, c: Component, i: nat, parent: string)
    ensures
      var ref := ComponentRef(w, redact, c, i, parent);
      ref != "" && StartsWith(ref, Place(Base(w, parent), i)) && |ref| > |Base(w, parent)|
  {
    var ref, p := ComponentRef(w, redact, c, i, parent), Place(Base(w, parent), i);
    assert ref == p + (c.typ + "/" + redact(c.name));
  }

  /** References below a component extend its own. */
  lemma BelowExtends(below: seq<string>, ref: string, n: nat, r: string)
    requires ref != "" && UnderPlaces(below, ref, n) && r in below
    ensures StartsWith(r, ref) && |r| > |ref|
  {
    var j: nat :| j < n && StartsWith(r, Place(ref, j));
    var p := Place(ref, j);
    assert p == ref + ("/component/" + Decimal(j) + "/");
    assert StartsWith(p, ref);
    StartsTransitive(r, p, ref);
  }

  lemma {:induction false} RefsUnderPlaces(w: Workload, redact: Redact, cs: seq<Component>, parent: string)
    ensures UnderPlaces(Refs(w, redact, cs, parent), Base(w, parent), |cs|)
    decreases cs
  {
    if cs != [] {
      var i := |cs| - 1;
      var ref := ComponentRef(w, redact, cs[i], i, parent);
      var before, below := Refs(w, redact, cs[..i], parent), Refs(w, redact, cs[i].children, ref);
      RefsUnderPlaces(w, redact, cs[..i], parent);
      RefsUnderPlaces(w, redact, cs[i].children, ref);
      RefAtPlace(w, redact, cs[i], i, parent);
      forall r | r in before + [ref] + below
        ensures exists j: nat :: j < |cs| && StartsWith(r, Place(Base(w, parent), j))
      {
        if r in before {
          var j: nat :| j < i && StartsWith(r, Place(Base(w, parent), j));
          assert j < |cs|;
        } else if r in below {
          BelowExtends(below, ref, |cs[i].children|, r);
          StartsTransitive(r, ref, Place(Base(w, parent), i));
        }
      }
    }
  }

  ghost predicate AllDistinct(s: seq<string>) {
    forall i, j :: 0 <= i < j < |s| ==> s[i] != s[j]
  }

  lemma DistinctAppend(s: seq<string>, t: seq<string>)
    requires AllDistinct(s) && AllDistinct(t) && forall x :: x in s ==> x !in t
    ensures AllDistinct(s + t)
  {
    var u := s + t;
    forall i, j | 0 <= i < j < |u|
      ensures u[i] != u[j]
    {
      if i < |s| <= j {
        assert u[i] in s && u[j] in t;
      }
    }
  }

  /** For every component forest, of any depth and with any names, types and redaction: the
      references below a parent are pairwise distinct. */
  lemma {:induction false} SiblingRefsDistinct(w: Workload, redact: Redact, cs: seq<Component>, parent: string)
    ensures AllDistinct(Refs(w, redact, cs, parent))
    decreases cs
  {
    if cs != [] {
      var i := |cs| - 1;
      var base := Base(w, parent);
      var ref := ComponentRef(w, redact, cs[i], i, parent);
      var before, below := Refs(w, redact, cs[..i], parent), Refs(w, redact, cs[i].children, ref);
      SiblingRefsDistinct(w, redact, cs[..i], parent);
      SiblingRefsDistinct(w, redact, cs[i].children, ref);
      RefsUnderPlaces(w, redact, cs[..i], parent);
      RefsUnderPlaces(w, redact, cs[i].children, ref);
      RefAtPlace(w, redact, cs[i], i, parent);
      forall r | r in below
        ensures r != ref && StartsWith(r, Place(base, i))
      {
        BelowExtends(below, ref, |cs[i].children|, r);
        StartsTransitive(r, ref, Place(base, i));
      }
      forall r | r in before
        ensures r !in [ref] + below
      {
        var j: nat :| j < i && StartsWith(r, Place(base, j));
        if r in [ref] + below { PlacesDiffer(base, i, j, r); }
      }
      DistinctAppend([ref], below);
      DistinctAppend(before, [ref] + below);
      assert before + [ref] + below == before + ([ref] + below);
    }
  }

  /** All references of a document, the workload's own among them, are pairwise distinct. */
  lemma DocumentRefsDistinct(w: Workload, redact: Redact, cs: seq<Component>)
    ensures AllDistinct([WorkloadRef(w)] + Refs(w, redact, cs, ""))
  {
    var refs := Refs(w, redact, cs, "");
    SiblingRefsDistinct(w, redact, cs, "");
    RefsUnderPlaces(w, redact, cs, "");
    forall r | r in refs
      ensures r != WorkloadRef(w)
    {
      BelowExtends(refs, WorkloadRef(w), |cs|, r);
    }
    DistinctAppend([WorkloadRef(w)], refs);
  }

  /** How references are spelled. */
  lemma RefSpelling(w: Workload, redact: Redact, c: Component, i: nat, parent: string)
    ensures WorkloadRef(w) == "workload:" + w.namespace + "/" + w.kind + "/" + w.name
    ensures parent != "" ==>
      ComponentRef(w, redact, c, i, parent) == parent + "/component/" + Decimal(i) + "/" + c.typ + "/" + redact(c.name)
    ensures ComponentRef(w, redact, c, i, "") == ComponentRef(w, redact, c, i, WorkloadRef(w))
  {
  }
}
