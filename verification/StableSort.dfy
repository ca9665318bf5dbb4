/**
 Deterministic component order (internal/scraper/inference.go, internal/scraper/
 inference_extract.go): annotation maps are iterated in no fixed order, and the stable sort
 followed by the cap gives the same sequence whatever the order.
 */
module StableSort {
  import opened Components
  import opened Text

  /** Components are ordered by type, then name, then locator. */
  datatype SortKey = SortKey(typ: string, name: string, locator: string)

  function KeyOf(c: Component): SortKey { SortKey(c.typ, c.name, c.locator) }

  predicate Before(a: SortKey, b: SortKey) {
    Less(a.typ, b.typ) ||
    (a.typ == b.typ && (Less(a.name, b.name) || (a.name == b.name && Less(a.locator, b.locator))))
  }

  lemma BeforeTrichotomy(a: SortKey, b: SortKey)
    ensures Before(a, b) || a == b || Before(b, a)
    ensures !(Before(a, b) && Before(b, a)) && !Before(a, a)
  {
    LessTrichotomy(a.typ, b.typ);
    LessTrichotomy(a.name, b.name);
    LessTrichotomy(a.locator, b.locator);
    LessTrichotomy(a.typ, a.typ);
    LessTrichotomy(a.name, a.name);
    LessTrichotomy(a.locator, a.locator);
  }

  lemma BeforeTransitive(a: SortKey, b: SortKey, c: SortKey)
    requires Before(a, b) && Before(b, c)
    ensures Before(a, c)
  {
    if Less(a.typ, b.typ) && Less(b.typ, c.typ) { LessTransitive(a.typ, b.typ, c.typ); }
    if Less(a.name, b.name) && Less(b.name, c.name) { LessTransitive(a.name, b.name, c.name); }
    if Less(a.locator, b.locator) && Less(b.locator, c.locator) { LessTransitive(a.locator, b.locator, c.locator); }
  }

  ghost predicate Sorted(s: seq<Component>) {
    forall i, j :: 0 <= i < j < |s| ==> !Before(KeyOf(s[j]), KeyOf(s[i]))
  }

  /** The elements with key `k`, in order. */
  function Only(s: seq<Component>, k: SortKey): seq<Component> {
    if s == [] then []
    else (if KeyOf(s[0]) == k then [s[0]] else []) + Only(s[1..], k)
  }

  /** A stable sort orders by key and keeps the order of equal keys. */
  ghost predicate StableSortOf(input: seq<Component>, output: seq<Component>) {
    Sorted(output) && forall k :: Only(output, k) == Only(input, k)
  }

  lemma {:induction false} OnlyHolds(s: seq<Component>, k: SortKey)
    ensures forall c :: c in Only(s, k) ==> c in s && KeyOf(c) == k
    ensures Only(s, k) == [] <==> forall i :: 0 <= i < |s| ==> KeyOf(s[i]) != k
  {
    if s != [] { OnlyHolds(s[1..], k); }
  }

  lemma HeadIsLeast(a: seq<Component>, b: seq<Component>)
    requires Sorted(a) && a != [] && b != [] && Only(a, KeyOf(b[0])) == Only(b, KeyOf(b[0]))
    ensures !Before(KeyOf(b[0]), KeyOf(a[0]))
  {
    var k := KeyOf(b[0]);
    OnlyHolds(a, k);
    OnlyHolds(b, k);
    var i :| 0 <= i < |a| && KeyOf(a[i]) == k;
    BeforeTrichotomy(k, k);
  }

  /** A stable sort is fixed by its per-key subsequences: two sorted sequences that agree on them
      are the same sequence. */
  lemma {:induction false} SortedByKeySubsequences(a: seq<Component>, b: seq<Component>)
    requires Sorted(a) && Sorted(b) && forall k :: Only(a, k) == Only(b, k)
    ensures a == b
    decreases |a|
  {
    if a == [] {
      if b != [] {
        OnlyHolds(b, KeyOf(b[0]));
      }
    } else {
      var ka := KeyOf(a[0]);
      OnlyHolds(a, ka);
      OnlyHolds(b, ka);
      assert b != [];
      HeadIsLeast(a, b);
      HeadIsLeast(b, a);
      BeforeTrichotomy(ka, KeyOf(b[0]));
      assert a[0] == Only(a, ka)[0] == Only(b, ka)[0] == b[0];
      forall k
        ensures Only(a[1..], k) == Only(b[1..], k)
      {
        assert Only(a, k) == Only(b, k);
        assert Only(a[1..], k) == if k == ka then Only(a, k)[1..] else Only(a, k);
        assert Only(b[1..], k) == if k == ka then Only(b, k)[1..] else Only(b, k);
      }
      SortedByKeySubsequences(a[1..], b[1..]);
      assert a == [a[0]] + a[1..] && b == [b[0]] + b[1..];
    }
  }

  // -------------------------------------------------------------------------- sorting in place

  function Insert(s: seq<Component>, x: Component): seq<Component> {
    if s == [] || !Before(KeyOf(x), KeyOf(s[|s| - 1])) then s + [x]
    else Insert(s[..|s| - 1], x) + [s[|s| - 1]]
  }

  function SortedComponents(s: seq<Component>): seq<Component> {
    if s == [] then [] else Insert(SortedComponents(s[..|s| - 1]), s[|s| - 1])
  }

  lemma {:induction false} OnlyAppend(s: seq<Component>, t: seq<Component>, k: SortKey)
    ensures Only(s + t, k) == Only(s, k) + Only(t, k)
  {
    if s == [] {
      assert s + t == t;
    } else {
      OnlyAppend(s[1..], t, k);
      assert (s + t)[1..] == s[1..] + t;
    }
  }

  lemma {:induction false} InsertSorts(s: seq<Component>, x: Component)
    requires Sorted(s)
    ensures Sorted(Insert(s, x)) && |Insert(s, x)| == |s| + 1
    ensures forall c :: c in Insert(s, x) ==> c in s || c == x
  {
    if s != [] {
      var init, last := s[..|s| - 1], s[|s| - 1];
      if Before(KeyOf(x), KeyOf(last)) {
        InsertSorts(init, x);
        BeforeTrichotomy(KeyOf(x), KeyOf(last));
        var r := Insert(init, x);
        forall i | 0 <= i < |r|
          ensures !Before(KeyOf(last), KeyOf(r[i]))
        {
          if r[i] in init {
            var t :| 0 <= t < |init| && init[t] == r[i];
            assert s[t] == r[i];
          }
        }
      } else {
        forall i | 0 <= i < |s|
          ensures !Before(KeyOf(x), KeyOf(s[i]))
        {
          if Before(KeyOf(x), KeyOf(s[i])) && i < |s| - 1 {
            BeforeTrichotomy(KeyOf(s[i]), KeyOf(last));
            if Before(KeyOf(s[i]), KeyOf(last)) { BeforeTransitive(KeyOf(x), KeyOf(s[i]), KeyOf(last)); }
          }
        }
      }
    }
  }

  lemma {:induction false} InsertStable(s: seq<Component>, x: Component, k: SortKey)
    ensures Only(Insert(s, x), k) == Only(s, k) + Only([x], k)
  {
    OnlyAppend(s, [x], k);
    if s != [] && Before(KeyOf(x), KeyOf(s[|s| - 1])) {
      var init, last := s[..|s| - 1], s[|s| - 1];
      InsertStable(init, x, k);
      OnlyAppend(Insert(init, x), [last], k);
      OnlyAppend(init, [last], k);
      assert s == init + [last];
      BeforeTrichotomy(KeyOf(x), KeyOf(last));
      assert Only([x], k) == [] || Only([last], k) == [];
    }
  }

  lemma {:induction false} SortedComponentsStable(s: seq<Component>)
    ensures StableSortOf(s, SortedComponents(s)) && |SortedComponents(s)| == |s|
  {
    if s != [] {
      var init, last := s[..|s| - 1], s[|s| - 1];
      SortedComponentsStable(init);
      InsertSorts(SortedComponents(init), last);
      forall k
        ensures Only(SortedComponents(s), k) == Only(s, k)
      {
        InsertStable(SortedComponents(init), last, k);
        OnlyAppend(init, [last], k);
        assert s == init + [last];
      }
    }
  }

  lemma {:induction false} InsertAt(s: seq<Component>, x: Component, j: nat)
    requires j <= |s| && (j > 0 ==> !Before(KeyOf(x), KeyOf(s[j - 1])))
    requires forall i :: j <= i < |s| ==> Before(KeyOf(x), KeyOf(s[i]))
    ensures Insert(s, x) == s[..j] + [x] + s[j..]
  {
    if j == |s| {
      assert s[..j] + [x] + s[j..] == s + [x];
    } else {
      var init, last := s[..|s| - 1], s[|s| - 1];
      InsertAt(init, x, j);
      assert s[..j] + [x] + s[j..] == (init[..j] + [x] + init[j..]) + [last];
    }
  }

  lemma InsertedAt(t: seq<Component>, s: seq<Component>, x: Component, j: nat)
    requires j <= |s| && |t| == |s| + 1 && t[j] == x && (j > 0 ==> !Before(KeyOf(x), KeyOf(s[j - 1])))
    requires forall i :: 0 <= i < j ==> t[i] == s[i]
    requires forall i :: j <= i < |s| ==> t[i + 1] == s[i] && Before(KeyOf(x), KeyOf(s[i]))
    ensures t == Insert(s, x)
  {
    assert t[..j] == s[..j] && t[j + 1..] == s[j..];
    assert t == t[..j] + [t[j]] + t[j + 1..];
    InsertAt(s, x, j);
  }

  /** Moves the elements before `i` that come after `x` one place up, leaving a gap at `j`. */
  method OpenGap(a: array<Component>, i: nat, x: Component) returns (j: nat)
    requires i < a.Length
    modifies a
    ensures j <= i && (j > 0 ==> !Before(KeyOf(x), KeyOf(old(a[j - 1]))))
    ensures forall t :: 0 <= t < j || i < t < a.Length ==> a[t] == old(a[t])
    ensures forall t :: j <= t < i ==> a[t + 1] == old(a[t]) && Before(KeyOf(x), KeyOf(old(a[t])))
  {
    j := i;
    while j > 0 && Before(KeyOf(x), KeyOf(a[j - 1]))
      invariant j <= i
      invariant forall t :: 0 <= t < j || i < t < a.Length ==> a[t] == old(a[t])
      invariant forall t :: j <= t < i ==> a[t + 1] == old(a[t]) && Before(KeyOf(x), KeyOf(old(a[t])))
    {
      a[j] := a[j - 1];
      j := j - 1;
    }
  }

  /** Shifts `a[i]` down to its place among the sorted elements before it. */
  method SinkDown(a: array<Component>, i: nat)
    requires i < a.Length
    modifies a
    ensures a[..i + 1] == Insert(old(a[..i]), old(a[i]))
    ensures a[i + 1..] == old(a[i + 1..])
  {
    ghost var s := a[..i];
    var x := a[i];
    var j := OpenGap(a, i, x);
    a[j] := x;
    InsertedAt(a[..i + 1], s, x, j);
  }

  /** Sorts in place; any other stable sort gives the same sequence. */
  method SortInPlace(a: array<Component>)
    modifies a
    ensures a[..] == SortedComponents(old(a[..]))
    ensures StableSortOf(old(a[..]), a[..])
  {
    ghost var was := a[..];
    for i := 0 to a.Length
      invariant a[..i] == SortedComponents(was[..i])
      invariant a[i..] == was[i..]
    {
      assert a[i] == a[i..][0] == was[i];
      assert was[..i + 1][..i] == was[..i];
      ghost var rest := a[i + 1..];
      assert rest == a[i..][1..] == was[i + 1..];
      SinkDown(a, i);
    }
    assert was[..a.Length] == was && a[..a.Length] == a[..];
    SortedComponentsStable(was);
  }

  // ------------------------------------------------------------------------ children

  /** Each component with its children sorted at every depth. */
  function DeepAll(cs: seq<Component>): seq<Component>
    decreases cs, 0
  {
    if cs == [] then []
    else
      var last := cs[|cs| - 1];
      DeepAll(cs[..|cs| - 1]) + [last.(children := SortedTree(last.children))]
  }

  function SortedTree(cs: seq<Component>): seq<Component>
    decreases cs, 1
  {
    SortedComponents(DeepAll(cs))
  }

  function Deep(c: Component): Component { c.(children := SortedTree(c.children)) }

  lemma {:induction false} DeepAt(cs: seq<Component>)
    ensures |DeepAll(cs)| == |cs| && forall i :: 0 <= i < |cs| ==> DeepAll(cs)[i] == Deep(cs[i])
  {
    if cs != [] { DeepAt(cs[..|cs| - 1]); }
  }

  lemma {:induction false} DeepInsert(s: seq<Component>, x: Component)
    ensures DeepAll(Insert(s, x)) == Insert(DeepAll(s), Deep(x))
  {
    var d := DeepAll(s);
    DeepAt(s);
    if s == [] || !Before(KeyOf(x), KeyOf(s[|s| - 1])) {
      assert (s + [x])[..|s|] == s;
    } else {
      var init, last := s[..|s| - 1], s[|s| - 1];
      DeepInsert(init, x);
      var r := Insert(init, x);
      assert (r + [last])[..|r|] == r;
      assert d == DeepAll(init) + [Deep(last)];
    }
  }

  /** Children do not take part in the order, so they may be sorted before or after. */
  lemma {:induction false} DeepSorted(s: seq<Component>)
    ensures DeepAll(SortedComponents(s)) == SortedComponents(DeepAll(s))
  {
    if s != [] {
      var init, last := s[..|s| - 1], s[|s| - 1];
      DeepSorted(init);
      DeepInsert(SortedComponents(init), last);
      var d := DeepAll(s);
      assert d[..|d| - 1] == DeepAll(init);
    }
  }

  lemma {:induction false} InsertKeeps(s: seq<Component>, x: Component)
    ensures forall c :: c in Insert(s, x) ==> c in s || c == x
  {
    if s != [] { InsertKeeps(s[..|s| - 1], x); }
  }

  lemma {:induction false} SortKeeps(s: seq<Component>)
    ensures forall c :: c in SortedComponents(s) ==> c in s
  {
    if s != [] {
      SortKeeps(s[..|s| - 1]);
      InsertKeeps(SortedComponents(s[..|s| - 1]), s[|s| - 1]);
    }
  }

  /** Sorts the array, then the children of each element, at every depth. */
  method SortComponents(a: array<Component>)
    modifies a
    ensures a[..] == SortedTree(old(a[..]))
    decreases a[..], 1
  {
    ghost var was := a[..];
    SortInPlace(a);
    SortKeeps(was);
    assert forall c :: c in a[..] ==> c in was;
    DeepSorted(was);
    SortChildren(a, was);
  }

  method SortSeq(cs: seq<Component>) returns (out: seq<Component>)
    ensures out == SortedTree(cs)
    decreases cs, 2
  {
    var b := new Component[|cs|](i requires 0 <= i < |cs| => cs[i]);
    assert b[..] == cs;
    SortComponents(b);
    out := b[..];
  }

  method SortBelow(c: Component) returns (d: Component)
    ensures d == Deep(c)
    decreases c, 3
  {
    d := c;
    if |c.children| > 0 {
      var children := SortSeq(c.children);
      d := c.(children := children);
    } else {
      assert SortedTree(c.children) == [];
    }
  }

  method SortChildren(a: array<Component>, ghost bound: seq<Component>)
    requires forall c :: c in a[..] ==> c in bound
    modifies a
    ensures a[..] == DeepAll(old(a[..]))
    decreases bound, 0
  {
    ghost var was := a[..];
    for i := 0 to a.Length
      invariant forall j :: 0 <= j < i ==> a[j] == Deep(was[j])
      invariant forall j :: i <= j < a.Length ==> a[j] == was[j]
    {
      assert a[i] == was[i] && was[i] in was;
      ghost var t :| 0 <= t < |bound| && bound[t] == a[i];
      var c := SortBelow(a[i]);
      a[i] := c;
    }
    DeepAt(was);
  }

  ghost predicate SortedThroughout(cs: seq<Component>)
    decreases cs
  {
    Sorted(cs) && forall i :: 0 <= i < |cs| ==> SortedThroughout(cs[i].children)
  }

  /** The result is ordered at every depth, and at each level it is the stable sort of the components
      with their children so sorted. */
  lemma {:induction false} SortedTreeStable(cs: seq<Component>)
    ensures SortedThroughout(SortedTree(cs)) && StableSortOf(DeepAll(cs), SortedTree(cs)) && |SortedTree(cs)| == |cs|
    decreases cs
  {
    var d, t := DeepAll(cs), SortedTree(cs);
    SortedComponentsStable(d);
    SortKeeps(d);
    DeepAt(cs);
    forall i | 0 <= i < |t|
      ensures SortedThroughout(t[i].children)
    {
      assert t[i] in t;
      var j :| 0 <= j < |cs| && t[i] == Deep(cs[j]);
      SortedTreeStable(cs[j].children);
    }
  }

  // ------------------------------------------------------------------------ annotation models

  const MODEL_PREFIX := "model.k8saibom.dev/"
  const SIGNATURE_REF := MODEL_PREFIX + "oms-signature"
  const MODEL_DIGEST := MODEL_PREFIX + "digest"

  const MAX_NAME := 1024
  const ELLIPSIS := "...[truncated]"

  /** At most `n` characters, marked when cut. */
  function Truncate(s: string, n: nat): (r: string)
    ensures |r| <= n && (|s| <= n ==> r == s)
    ensures |s| > n && n > 14 ==> r == s[..n - 14] + "...[truncated]"
  {
    if |s| <= n then s
    else if n <= |ELLIPSIS| then s[..n]
    else s[..n - |ELLIPSIS|] + ELLIPSIS
  }

  /** Annotations that declare a model: the prefix, not claim metadata, and a value. */
  predicate Declares(k: string, v: string) {
    MODEL_PREFIX <= k && k != SIGNATURE_REF && k != MODEL_DIGEST && v != ""
  }

  function Model(k: string, v: string, source: string, base: string): Component {
    Component(ML_MODEL, Truncate(v, MAX_NAME), "", "", map[], source, base + "[" + k + "]", "declared",
              map["identity.confidence" := "claimed", "identity.annotation" := k], [])
  }

  /** The models of the annotations `ks`, in that order. */
  function Models(ks: seq<string>, annotations: map<string, string>, source: string, base: string): seq<Component>
    requires forall k :: k in ks ==> k in annotations
  {
    if ks == [] then []
    else
      var init, last := ks[..|ks| - 1], ks[|ks| - 1];
      Models(init, annotations, source, base) + [Model(last, annotations[last], source, base)]
  }

  /** `ks` lists the declaring annotations, each once, in some order. */
  ghost predicate Listing(ks: seq<string>, annotations: map<string, string>) {
    && (forall i, j :: 0 <= i < j < |ks| ==> ks[i] != ks[j])
    && (forall k :: k in ks <==> k in annotations && Declares(k, annotations[k]))
  }

  /** One model per declaring annotation, in whatever order the map is iterated. */
  method ExtractModels(annotations: map<string, string>, source: string, base: string)
    returns (out: seq<Component>)
    ensures exists order :: Listing(order, annotations) && out == Models(order, annotations, source, base)
  {
    out := [];
    ghost var order: seq<string> := [];
    var todo := annotations.Keys;
    while todo != {}
      invariant todo <= annotations.Keys
      invariant forall i, j :: 0 <= i < j < |order| ==> order[i] != order[j]
      invariant forall k :: k in order <==> k in annotations && k !in todo && Declares(k, annotations[k])
      invariant out == Models(order, annotations, source, base)
      decreases todo
    {
      var k :| k in todo;
      todo := todo - {k};
      if Declares(k, annotations[k]) {
        out := out + [Model(k, annotations[k], source, base)];
        assert (order + [k])[..|order|] == order;
        order := order + [k];
      }
    }
  }

  /** The model declared under the sort key `k`, if any: the locator names the annotation. */
  ghost predicate DeclaredAs(a: string, annotations: map<string, string>, source: string, base: string, k: SortKey) {
    a in annotations && Declares(a, annotations[a]) && KeyOf(Model(a, annotations[a], source, base)) == k
  }

  lemma LocatorNamesAnnotation(base: string, a: string, b: string)
    requires base + "[" + a + "]" == base + "[" + b + "]"
    ensures a == b
  {
    var x, y := base + "[" + a + "]", base + "[" + b + "]";
    assert a == x[|base| + 1..|x| - 1] && b == y[|base| + 1..|y| - 1];
  }

  /** Distinct annotations have distinct sort keys, so each key has at most one model. */
  lemma {:induction false} OnlyModel(ks: seq<string>, annotations: map<string, string>, source: string, base: string,
                                     k: SortKey)
    requires forall a :: a in ks ==> a in annotations && Declares(a, annotations[a])
    requires forall i, j :: 0 <= i < j < |ks| ==> ks[i] != ks[j]
    ensures
      var only := Only(Models(ks, annotations, source, base), k);
      && (forall a :: a in ks && DeclaredAs(a, annotations, source, base, k) ==>
           only == [Model(a, annotations[a], source, base)])
      && ((forall a :: a in ks ==> !DeclaredAs(a, annotations, source, base, k)) ==> only == [])
  {
    if ks != [] {
      var init, a := ks[..|ks| - 1], ks[|ks| - 1];
      var x := Model(a, annotations[a], source, base);
      OnlyModel(init, annotations, source, base, k);
      OnlyAppend(Models(init, annotations, source, base), [x], k);
      assert Only([x], k) == if KeyOf(x) == k then [x] else [];
      assert ks == init + [a];
      if DeclaredAs(a, annotations, source, base, k) {
        forall b | b in init
          ensures !DeclaredAs(b, annotations, source, base, k)
        {
          if DeclaredAs(b, annotations, source, base, k) { LocatorNamesAnnotation(base, a, b); }
        }
      }
    }
  }

  lemma OnlyModelsAgree(ks: seq<string>, ls: seq<string>, annotations: map<string, string>, source: string,
                        base: string, k: SortKey)
    requires Listing(ks, annotations) && Listing(ls, annotations)
    ensures Only(Models(ks, annotations, source, base), k) == Only(Models(ls, annotations, source, base), k)
  {
    OnlyModel(ks, annotations, source, base, k);
    OnlyModel(ls, annotations, source, base, k);
    if a :| a in ks && DeclaredAs(a, annotations, source, base, k) {
      assert a in ls;
    }
  }

  // ------------------------------------------------------------------------ the whole scrape

  /** Signature facts recorded on a model; `verify` answers equal claims equally. */
  type Verify = string -> map<string, string>

  function Sign(c: Component, verify: Verify): Component {
    if c.typ == ML_MODEL then c.(properties := c.properties + verify(c.name)) else c
  }

  function SignAll(cs: seq<Component>, verify: Verify): seq<Component> {
    if cs == [] then [] else [Sign(cs[0], verify)] + SignAll(cs[1..], verify)
  }

  lemma {:induction false} OnlySigned(cs: seq<Component>, verify: Verify, k: SortKey)
    ensures Only(SignAll(cs, verify), k) == SignAll(Only(cs, k), verify)
  {
    if cs != [] {
      OnlySigned(cs[1..], verify, k);
      assert SignAll(cs, verify)[1..] == SignAll(cs[1..], verify);
      if KeyOf(cs[0]) == k {
        assert Only(cs, k)[1..] == Only(cs[1..], k);
      } else {
        assert Only(cs, k) == Only(cs[1..], k);
      }
    }
  }

  datatype Scraped = Scraped(components: seq<Component>, truncated: nat)

  function Cap(cs: seq<Component>): Scraped {
    if |cs| > MAX_COMPONENTS then Scraped(cs[..MAX_COMPONENTS], |cs| - MAX_COMPONENTS) else Scraped(cs, 0)
  }

  /** Where each of the two annotation maps is found. */
  datatype Origin = Origin(annotations: map<string, string>, source: string, base: string)

  function Listed(ks: seq<string>, o: Origin): seq<Component>
    requires forall k :: k in ks ==> k in o.annotations
  {
    Models(ks, o.annotations, o.source, o.base)
  }

  /** Containers first, then the template's models, then the workload's; signed, sorted, capped. */
  function Scrape(containers: seq<Component>, ts: seq<string>, template: Origin, ws: seq<string>, workload: Origin,
                  verify: Verify): Scraped
    requires forall k :: k in ts ==> k in template.annotations
    requires forall k :: k in ws ==> k in workload.annotations
  {
    Cap(SortedTree(SignAll(containers + Listed(ts, template) + Listed(ws, workload), verify)))
  }

  /** For any two iteration orders of the two annotation maps, the scrape gives the identical
      component sequence and the identical count of dropped components. */
  lemma IterationOrderIrrelevant(containers: seq<Component>, template: Origin, workload: Origin, verify: Verify,
                                 ts: seq<string>, ts': seq<string>, ws: seq<string>, ws': seq<string>)
    requires Listing(ts, template.annotations) && Listing(ts', template.annotations)
    requires Listing(ws, workload.annotations) && Listing(ws', workload.annotations)
    ensures Scrape(containers, ts, template, ws, workload, verify) ==
      Scrape(containers, ts', template, ws', workload, verify)
  {
    var a := containers + Listed(ts, template) + Listed(ws, workload);
    var b := containers + Listed(ts', template) + Listed(ws', workload);
    SortedComponentsStable(SignAll(a, verify));
    SortedComponentsStable(SignAll(b, verify));
    forall k
      ensures Only(SignAll(a, verify), k) == Only(SignAll(b, verify), k)
    {
      OnlyModelsAgree(ts, ts', template.annotations, template.source, template.base, k);
      OnlyModelsAgree(ws, ws', workload.annotations, workload.source, workload.base, k);
      OnlyAppend(containers + Listed(ts, template), Listed(ws, workload), k);
      OnlyAppend(containers, Listed(ts, template), k);
      OnlyAppend(containers + Listed(ts', template), Listed(ws', workload), k);
      OnlyAppend(containers, Listed(ts', template), k);
      assert Only(a, k) == Only(b, k);
      OnlySigned(a, verify, k);
      OnlySigned(b, verify, k);
    }
    SortedByKeySubsequences(SortedComponents(SignAll(a, verify)), SortedComponents(SignAll(b, verify)));
    DeepSorted(SignAll(a, verify));
    DeepSorted(SignAll(b, verify));
  }

  // ------------------------------------------------------------------------ what a scrape holds

  ghost predicate InOrder(a: Component, b: Component) {
    || Less(a.typ, b.typ)
    || (a.typ == b.typ && Less(a.name, b.name))
    || (a.typ == b.typ && a.name == b.name && (a.locator == b.locator || Less(a.locator, b.locator)))
  }

  /** Sorted means by type, then by name, then by locator. */
  lemma OrderExact(s: seq<Component>)
    ensures Sorted(s) <==> forall i, j :: 0 <= i < j < |s| ==> InOrder(s[i], s[j])
  {
    forall i, j | 0 <= i < j < |s|
      ensures !Before(KeyOf(s[j]), KeyOf(s[i])) <==> InOrder(s[i], s[j])
    {
      LessTrichotomy(s[i].typ, s[j].typ);
      LessTrichotomy(s[i].name, s[j].name);
      LessTrichotomy(s[i].locator, s[j].locator);
    }
  }

  lemma {:induction false} OnlyFinds(s: seq<Component>, c: Component)
    requires c in s
    ensures c in Only(s, KeyOf(c))
  {
    if c != s[0] {
      assert s == [s[0]] + s[1..];
      OnlyFinds(s[1..], c);
    }
  }

  /** Sorting loses nothing and adds nothing. */
  lemma SortHolds(s: seq<Component>, c: Component)
    ensures c in s <==> c in SortedComponents(s)
  {
    SortedComponentsStable(s);
    SortKeeps(s);
    if c in s {
      OnlyFinds(s, c);
      OnlyHolds(SortedComponents(s), KeyOf(c));
    }
  }

  lemma TreeHolds(s: seq<Component>, c: Component)
    requires c in s
    ensures Deep(c) in SortedTree(s)
  {
    DeepAt(s);
    var i :| 0 <= i < |s| && s[i] == c;
    assert DeepAll(s)[i] in DeepAll(s);
    SortHolds(DeepAll(s), Deep(c));
  }

  /** Which annotations declare a model. */
  lemma DeclaresExact(k: string, v: string)
    ensures Declares(k, v) <==>
      && "model.k8saibom.dev/" <= k && v != ""
      && k != "model.k8saibom.dev/oms-signature" && k != "model.k8saibom.dev/digest"
  {
    assert MODEL_PREFIX + "oms-signature" == "model.k8saibom.dev/oms-signature";
    assert MODEL_PREFIX + "digest" == "model.k8saibom.dev/digest";
  }

  lemma {:induction false} ModelsAt(ks: seq<string>, annotations: map<string, string>, source: string, base: string)
    requires forall k :: k in ks ==> k in annotations
    ensures |Models(ks, annotations, source, base)| == |ks|
    ensures forall i :: 0 <= i < |ks| ==>
      Models(ks, annotations, source, base)[i] == Model(ks[i], annotations[ks[i]], source, base)
  {
    if ks != [] { ModelsAt(ks[..|ks| - 1], annotations, source, base); }
  }

  lemma {:induction false} SignedAt(cs: seq<Component>, verify: Verify)
    ensures |SignAll(cs, verify)| == |cs| && forall i :: 0 <= i < |cs| ==> SignAll(cs, verify)[i] == Sign(cs[i], verify)
  {
    if cs != [] {
      SignedAt(cs[1..], verify);
      assert forall i :: 0 < i < |cs| ==> cs[i] == cs[1..][i - 1];
    }
  }

  /** The component that annotation `k` with value `v` gives. */
  ghost predicate DeclaredBy(c: Component, k: string, v: string, o: Origin, verify: Verify) {
    && c.typ == "machine-learning-model" && (|v| <= 1024 ==> c.name == v) && c.version == ""
    && c.source == o.source && c.locator == o.base + "[" + k + "]" && c.children == []
    && c.properties == map["identity.confidence" := "claimed", "identity.annotation" := k] + verify(c.name)
  }

  lemma DeclaredBuilt(k: string, v: string, o: Origin, verify: Verify)
    ensures DeclaredBy(Deep(Sign(Model(k, v, o.source, o.base), verify)), k, v, o, verify)
  {
    var c := Sign(Model(k, v, o.source, o.base), verify);
    assert SortedTree(c.children) == [];
  }

  /** What one scrape holds: what it keeps is the first part of the sorted components, at most 256; kept
      and dropped together are everything found, one for each declaring annotation; and without a drop
      each declaring annotation has its model. */
  lemma ScrapeExact(containers: seq<Component>, ts: seq<string>, template: Origin, ws: seq<string>, workload: Origin,
                    verify: Verify)
    requires Listing(ts, template.annotations) && Listing(ws, workload.annotations)
    ensures
      var all := SignAll(containers + Listed(ts, template) + Listed(ws, workload), verify);
      var r := Scrape(containers, ts, template, ws, workload, verify);
      && r.components <= SortedTree(all) && |r.components| <= 256
      && (r.truncated > 0 ==> |r.components| == 256)
      && |r.components| + r.truncated == |containers| + |ts| + |ws|
  {
    var found := containers + Listed(ts, template) + Listed(ws, workload);
    ModelsAt(ts, template.annotations, template.source, template.base);
    ModelsAt(ws, workload.annotations, workload.source, workload.base);
    SignedAt(found, verify);
    SortedTreeStable(SignAll(found, verify));
  }

  lemma FoundIsScraped(found: seq<Component>, verify: Verify, i: nat)
    requires i < |found|
    ensures Deep(Sign(found[i], verify)) in SortedTree(SignAll(found, verify))
  {
    SignedAt(found, verify);
    assert SignAll(found, verify)[i] in SignAll(found, verify);
    TreeHolds(SignAll(found, verify), Sign(found[i], verify));
  }

  lemma DeclaredIsScraped(containers: seq<Component>, ts: seq<string>, template: Origin, ws: seq<string>,
                          workload: Origin,
                          verify: Verify, k: string)
    requires Listing(ts, template.annotations) && Listing(ws, workload.annotations)
    requires Scrape(containers, ts, template, ws, workload, verify).truncated == 0
    ensures k in template.annotations && Declares(k, template.annotations[k]) ==>
      exists c :: c in Scrape(containers, ts, template, ws, workload, verify).components
               && DeclaredBy(c, k, template.annotations[k], template, verify)
    ensures k in workload.annotations && Declares(k, workload.annotations[k]) ==>
      exists c :: c in Scrape(containers, ts, template, ws, workload, verify).components
               && DeclaredBy(c, k, workload.annotations[k], workload, verify)
  {
    var t, w := Listed(ts, template), Listed(ws, workload);
    var found := containers + t + w;
    ModelsAt(ts, template.annotations, template.source, template.base);
    ModelsAt(ws, workload.annotations, workload.source, workload.base);
    if k in ts {
      var i :| 0 <= i < |ts| && ts[i] == k;
      assert found[|containers| + i] == t[i];
      FoundIsScraped(found, verify, |containers| + i);
      DeclaredBuilt(k, template.annotations[k], template, verify);
    }
    if k in ws {
      var i :| 0 <= i < |ws| && ws[i] == k;
      assert found[|containers| + |t| + i] == w[i];
      FoundIsScraped(found, verify, |containers| + |t| + i);
      DeclaredBuilt(k, workload.annotations[k], workload, verify);
    }
  }

  /** And every other component found, with its children sorted, unless it is a model. */
  lemma ContainerIsScraped(containers: seq<Component>, ts: seq<string>, template: Origin, ws: seq<string>,
                           workload: Origin,
                           verify: Verify, c: Component)
    requires Listing(ts, template.annotations) && Listing(ws, workload.annotations)
    requires Scrape(containers, ts, template, ws, workload, verify).truncated == 0
    requires c in containers && c.typ != "machine-learning-model"
    ensures c.(children := SortedTree(c.children)) in Scrape(containers, ts, template, ws, workload, verify).components
  {
    var found := containers + Listed(ts, template) + Listed(ws, workload);
    var i :| 0 <= i < |containers| && containers[i] == c;
    assert found[i] == c;
    FoundIsScraped(found, verify, i);
  }
}
