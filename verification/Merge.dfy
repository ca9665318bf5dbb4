/**
 Merging scraper results (internal/scraper/multi.go, internal/scraper/types.go): first occurrence of
 each dedup key, the per-document cap, and the count of everything dropped.
 */
module Merge {
  import opened Common
  import opened Components

  datatype Confidence = Declared | Inferred | Unresolved

  datatype Service = Service(name: string, endpoints: seq<string>, source: string, locator: string)

  /** One scraper's contribution. */
  datatype Inputs = Inputs(
    confidence: Confidence,
    components: seq<Component>,
    services: seq<Service>,
    provenance: seq<string>,
    errors: seq<string>,
    truncated: nat,
    category: string)

  const NOTHING := Inputs(Unresolved, [], [], [], [], 0, "")

  datatype Outcome = ScraperError | Merged(inputs: Inputs)

  datatype Scrape = Failed | Scraped(inputs: Inputs)

  // ------------------------------------------------------------------------- deduplication

  function DedupKey(c: Component): string {
    c.typ + "|" + c.name + "|" + c.version + "|" + c.source + "|" + c.locator
  }

  function Keys(cs: seq<Component>): set<string> { set c | c in cs :: DedupKey(c) }

  /** The first component of each key, in order, with children deduplicated likewise. */
  function Dedup(cs: seq<Component>): seq<Component>
    decreases cs
  {
    if cs == [] then []
    else
      var before := Dedup(cs[..|cs| - 1]);
      var last := cs[|cs| - 1];
      var c := last.(children := Dedup(last.children));
      if DedupKey(c) in Keys(before) then before else before + [c]
  }

  method DeduplicateComponents(cs: seq<Component>) returns (out: seq<Component>)
    ensures out == Dedup(cs)
    decreases cs
  {
    out := [];
    var seen: set<string> := {};
    for i := 0 to |cs|
      invariant out == Dedup(cs[..i])
      invariant seen == Keys(out)
    {
      assert cs[..i + 1][..i] == cs[..i];
      var children := DeduplicateComponents(cs[i].children);
      var c := cs[i].(children := children);
      var key := DedupKey(c);
      if key !in seen {
        assert Keys(out + [c]) == Keys(out) + {key};
        seen := seen + {key};
        out := out + [c];
      }
    }
    assert cs[..|cs|] == cs;
  }

  /** Position `i` is the first with its key. */
  ghost predicate FirstOfKey(cs: seq<Component>, i: nat) {
    i < |cs| && forall j :: 0 <= j < i ==> DedupKey(cs[j]) != DedupKey(cs[i])
  }

  /** The positions kept, in order. */
  ghost function Firsts(cs: seq<Component>): seq<nat> {
    if cs == [] then []
    else
      var init := cs[..|cs| - 1];
      Firsts(init) + if DedupKey(cs[|cs| - 1]) in Keys(init) then [] else [|cs| - 1]
  }

  lemma {:induction false} FirstsExact(cs: seq<Component>)
    ensures forall x :: 0 <= x < |Firsts(cs)| ==> FirstOfKey(cs, Firsts(cs)[x])
    ensures forall i: nat :: FirstOfKey(cs, i) ==> i in Firsts(cs)
    ensures forall x, y :: 0 <= x < y < |Firsts(cs)| ==> Firsts(cs)[x] < Firsts(cs)[y]
  {
    if cs != [] {
      var init, n := cs[..|cs| - 1], |cs| - 1;
      assert forall i: nat :: i < n ==> (FirstOfKey(cs, i) <==> FirstOfKey(init, i));
      assert DedupKey(cs[n]) in Keys(init) <==> !FirstOfKey(cs, n);
      FirstsExact(init);
    }
  }

  lemma KeysAppend(cs: seq<Component>, c: Component)
    ensures Keys(cs + [c]) == Keys(cs) + {DedupKey(c)}
  {
  }

  lemma {:induction false} DedupKeys(cs: seq<Component>)
    ensures Keys(Dedup(cs)) == Keys(cs)
  {
    if cs != [] {
      var init, last := cs[..|cs| - 1], cs[|cs| - 1];
      DedupKeys(init);
      assert cs == init + [last];
      KeysAppend(init, last);
      KeysAppend(Dedup(init), last.(children := Dedup(last.children)));
    }
  }

  /** Deduplication keeps exactly the first occurrence of each key, in the input's order, and drops
      no key. */
  lemma {:induction false} DedupKeepsFirsts(cs: seq<Component>)
    ensures |Dedup(cs)| == |Firsts(cs)|
    ensures forall x :: 0 <= x < |Firsts(cs)| ==>
      Firsts(cs)[x] < |cs| && Dedup(cs)[x] == cs[Firsts(cs)[x]].(children := Dedup(cs[Firsts(cs)[x]].children))
  {
    if cs != [] {
      var init, last := cs[..|cs| - 1], cs[|cs| - 1];
      DedupKeepsFirsts(init);
      DedupKeys(init);
      assert DedupKey(last.(children := Dedup(last.children))) == DedupKey(last);
    }
  }

  lemma GrowsBy(ks: set<string>, k: string)
    ensures |ks + {k}| == if k in ks then |ks| else |ks| + 1
  {
    if k in ks { assert ks + {k} == ks; }
  }

  /** As many components are kept as there are distinct keys. */
  lemma {:induction false} DedupSize(cs: seq<Component>)
    ensures |Dedup(cs)| == |Keys(cs)|
  {
    if cs == [] {
      assert Keys(cs) == {};
    } else {
      var init, last := cs[..|cs| - 1], cs[|cs| - 1];
      DedupSize(init);
      DedupKeys(init);
      assert cs == init + [last];
      KeysAppend(init, last);
      GrowsBy(Keys(init), DedupKey(last));
      assert DedupKey(last.(children := Dedup(last.children))) == DedupKey(last);
    }
  }

  // The key separates its parts with '|' without quoting them, so a component can be dropped though
  // it is not a copy; KeysIdentifyExactly says when that cannot happen.

  predicate Plain(s: string) { '|' !in s }

  ghost predicate SameCoordinates(a: Component, b: Component) {
    a.typ == b.typ && a.name == b.name && a.version == b.version && a.source == b.source && a.locator == b.locator
  }

  lemma SplitAtBar(a: string, b: string, x: string, y: string)
    requires Plain(a) && Plain(x) && a + "|" + b == x + "|" + y
    ensures a == x && b == y
  {
    var s, t := a + "|" + b, x + "|" + y;
    assert s[|a|] == '|' && t[|x|] == '|';
    assert forall i :: 0 <= i < |a| ==> s[i] == a[i];
    assert forall i :: 0 <= i < |x| ==> t[i] == x[i];
    assert |a| == |x|;
    assert a == s[..|a|] && x == t[..|x|] && b == s[|a| + 1..] && y == t[|x| + 1..];
  }

  /** Without the separator in type, name, version and source, equal keys mean equal coordinates. */
  lemma PlainKeysIdentify(a: Component, b: Component)
    requires Plain(a.typ) && Plain(a.name) && Plain(a.version) && Plain(a.source)
    requires Plain(b.typ) && Plain(b.name) && Plain(b.version) && Plain(b.source)
    ensures DedupKey(a) == DedupKey(b) <==> SameCoordinates(a, b)
  {
    if DedupKey(a) == DedupKey(b) {
      var a3, b3 := a.source + "|" + a.locator, b.source + "|" + b.locator;
      var a2, b2 := a.version + "|" + a3, b.version + "|" + b3;
      var a1, b1 := a.name + "|" + a2, b.name + "|" + b2;
      assert DedupKey(a) == a.typ + "|" + a1 && DedupKey(b) == b.typ + "|" + b1;
      SplitAtBar(a.typ, a1, b.typ, b1);
      SplitAtBar(a.name, a2, b.name, b2);
      SplitAtBar(a.version, a3, b.version, b3);
      SplitAtBar(a.source, a.locator, b.source, b.locator);
    }
  }

  /** A component as scrapers emit it: its type and source are plain words, it has a name, and name
      and version are written with these characters only. */
  ghost predicate Emitted(c: Component, alphabet: set<char>) {
    && Plain(c.typ) && Plain(c.source) && c.name != ""
    && forall x :: x in c.name || x in c.version ==> x in alphabet
  }

  function Container(name: string, version: string): Component {
    Component(CONTAINER, name, version, "", map[], "image_reference", "spec.template.spec.containers[0].image",
      "declared", map[], [])
  }

  lemma Regrouped(head: string, x: string, y: string, z: string, rest: string)
    ensures head + (x + "|" + y) + "|" + z + rest == head + x + "|" + (y + "|" + z) + rest
  {
    assert head + (x + "|" + y) + "|" + z == head + x + "|" + (y + "|" + z);
  }

  const KEY_END := "|" + "image_reference" + "|" + "spec.template.spec.containers[0].image"

  lemma ContainerKey(name: string, version: string)
    ensures DedupKey(Container(name, version)) == (CONTAINER + "|") + name + "|" + version + KEY_END
  {
    var c := Container(name, version);
    assert "|" + c.source + "|" + c.locator == KEY_END;
  }

  /** Two different containers, with one source and locator, share a key. */
  lemma ContainersCollide(x: string, y: string, z: string)
    requires x != ""
    ensures DedupKey(Container(x + "|" + y, z)) == DedupKey(Container(x, y + "|" + z))
    ensures !SameCoordinates(Container(x + "|" + y, z), Container(x, y + "|" + z))
  {
    assert |x + "|" + y| > |x|;
    ContainerKey(x + "|" + y, z);
    ContainerKey(x, y + "|" + z);
    Regrouped(CONTAINER + "|", x, y, z, KEY_END);
  }

  /** Over an alphabet, equal keys of emitted components mean equal coordinates exactly when the
      separator is not one of its characters. */
  lemma KeysIdentifyExactly(alphabet: set<char>)
    ensures (forall a, b :: Emitted(a, alphabet) && Emitted(b, alphabet) && DedupKey(a) == DedupKey(b) ==>
      SameCoordinates(a, b))
            <==> '|' !in alphabet
  {
    if '|' in alphabet {
      var a, b := Container("|" + "|" + "|", "|"), Container("|", "|" + "|" + "|");
      ContainersCollide("|", "|", "|");
      assert Emitted(a, alphabet) && Emitted(b, alphabet);
    } else {
      forall a, b | Emitted(a, alphabet) && Emitted(b, alphabet) && DedupKey(a) == DedupKey(b)
        ensures SameCoordinates(a, b)
      {
        PlainKeysIdentify(a, b);
      }
    }
  }

  // ----------------------------------------------------------------------------- selections

  function Containers(cs: seq<Component>): seq<Component> {
    if cs == [] then []
    else Containers(cs[..|cs| - 1]) + if cs[|cs| - 1].typ == CONTAINER then [cs[|cs| - 1]] else []
  }

  method ContainerComponents(cs: seq<Component>) returns (out: seq<Component>)
    ensures out == Containers(cs)
  {
    out := [];
    for i := 0 to |cs|
      invariant out == Containers(cs[..i])
    {
      assert cs[..i + 1][..i] == cs[..i];
      if cs[i].typ == CONTAINER {
        out := out + [cs[i]];
      }
    }
    assert cs[..|cs|] == cs;
  }

  /** The containers are exactly the components of that type, in the order of the list. */
  lemma {:induction false} ContainersExact(cs: seq<Component>) returns (at: seq<nat>)
    ensures Picks(cs, at, Containers(cs))
    ensures forall i: nat :: i in at <==> i < |cs| && cs[i].typ == CONTAINER
  {
    at := [];
    if cs != [] {
      var init, last := cs[..|cs| - 1], cs[|cs| - 1];
      at := ContainersExact(init);
      PicksMore(init, at, Containers(init), last);
      assert cs == init + [last];
      if last.typ == CONTAINER { at := at + [|init|]; }
    }
  }

  function Names(ss: seq<Service>): set<string> { set s | s in ss :: s.name }

  /** The first service of each name, in order. */
  function FirstServices(ss: seq<Service>): seq<Service> {
    if ss == [] then []
    else
      var n := |ss| - 1;
      FirstServices(ss[..n]) + if ss[n].name in Names(ss[..n]) then [] else [ss[n]]
  }

  lemma NamesMore(ss: seq<Service>, i: nat)
    requires i < |ss|
    ensures Names(ss[..i + 1]) == Names(ss[..i]) + {ss[i].name}
  {
    assert ss[..i + 1] == ss[..i] + [ss[i]];
  }

  method DeduplicateServices(ss: seq<Service>) returns (out: seq<Service>)
    ensures out == FirstServices(ss)
  {
    out := [];
    var seen: set<string> := {};
    for i := 0 to |ss|
      invariant out == FirstServices(ss[..i]) && seen == Names(ss[..i])
    {
      assert ss[..i + 1][..i] == ss[..i];
      NamesMore(ss, i);
      if ss[i].name !in seen {
        seen := seen + {ss[i].name};
        out := out + [ss[i]];
      }
    }
    assert ss[..|ss|] == ss;
  }

  ghost predicate FirstOfName(ss: seq<Service>, i: nat) {
    i < |ss| && forall j :: 0 <= j < i ==> ss[j].name != ss[i].name
  }

  /** Exactly the first service of each name is kept, in order. */
  lemma {:induction false} ServicesExact(ss: seq<Service>) returns (at: seq<nat>)
    ensures Picks(ss, at, FirstServices(ss))
    ensures forall i: nat :: i in at <==> FirstOfName(ss, i)
  {
    at := [];
    if ss != [] {
      var n := |ss| - 1;
      var init, last := ss[..n], ss[n];
      at := ServicesExact(init);
      PicksMore(init, at, FirstServices(init), last);
      assert ss == init + [last];
      assert forall i: nat :: i < n ==> (FirstOfName(ss, i) <==> FirstOfName(init, i));
      assert last.name in Names(init) <==> !FirstOfName(ss, n);
      if FirstOfName(ss, n) { at := at + [n]; }
    }
  }

  // ----------------------------------------------------------------------------- merging

  predicate Recognizes(i: Inputs) { !i.confidence.Unresolved? }

  /** A scraper without a signal of its own still carries the containers it saw. */
  predicate Carries(i: Inputs) { i.confidence.Unresolved? && Containers(i.components) != [] }

  /** What each scraper gives to a list of the document, in order. */
  function Collect<T>(rs: seq<Inputs>, part: Inputs -> seq<T>): seq<T> {
    if rs == [] then [] else Collect(rs[..|rs| - 1], part) + part(rs[|rs| - 1])
  }

  /** Components the contributors dropped themselves. */
  function OwnTruncations(rs: seq<Inputs>, contributes: Inputs -> bool): nat {
    if rs == [] then 0
    else OwnTruncations(rs[..|rs| - 1], contributes) + if contributes(rs[|rs| - 1]) then rs[|rs| - 1].truncated else 0
  }

  function RecognizedCount(rs: seq<Inputs>): nat {
    if rs == [] then 0 else RecognizedCount(rs[..|rs| - 1]) + if Recognizes(rs[|rs| - 1]) then 1 else 0
  }

  function OwnComponents(i: Inputs): seq<Component> { if Recognizes(i) then i.components else [] }
  function OwnServices(i: Inputs): seq<Service> { if Recognizes(i) then i.services else [] }
  function OwnProvenance(i: Inputs): seq<string> { if Recognizes(i) then i.provenance else [] }
  function OwnErrors(i: Inputs): seq<string> { if Recognizes(i) then i.errors else [] }
  function CarriedContainers(i: Inputs): seq<Component> { if Carries(i) then Containers(i.components) else [] }
  function CarriedProvenance(i: Inputs): seq<string> { if Carries(i) then i.provenance else [] }

  /** More than one result is put together. */
  predicate IsMerge(rs: seq<Inputs>) { RecognizedCount(rs) > 1 || Collect(rs, CarriedContainers) != [] }

  /** Everything contributed, before the cap; a single scraper's result is left as it is. */
  function Everything(rs: seq<Inputs>): seq<Component> {
    var all := Collect(rs, CarriedContainers) + Collect(rs, OwnComponents);
    if IsMerge(rs) then Dedup(all) else all
  }

  function AllServices(rs: seq<Inputs>): seq<Service> {
    if IsMerge(rs) then FirstServices(Collect(rs, OwnServices)) else Collect(rs, OwnServices)
  }

  function Priority(category: string): int {
    match category
    case "agent" => 7
    case "training" => 6
    case "evaluation" => 5
    case "vector-database" => 4
    case "pipeline" => 3
    case "notebook" => 2
    case "inference" => 1
    case _ => 0
  }

  /** `category` is offered by a recognizing scraper and none offers one of higher priority; it is
      empty only when none offers any. */
  ghost predicate BestCategory(rs: seq<Inputs>, category: string) {
    && (category != "" ==> exists r :: r in rs && !r.confidence.Unresolved? && r.category == category)
    && (forall r :: r in rs && !r.confidence.Unresolved? && r.category != "" ==>
          category != "" && Priority(r.category) <= Priority(category))
  }

  /** From the most specific to the least; any other category comes last. */
  lemma PriorityOrder(other: string)
    ensures Priority("agent") > Priority("training") > Priority("evaluation") > Priority("vector-database")
    ensures Priority("vector-database") > Priority("pipeline") > Priority("notebook") > Priority("inference")
    ensures Priority("inference") > Priority("") >= 0
    ensures other !in {"agent", "training", "evaluation", "vector-database", "pipeline", "notebook", "inference"} ==>
      Priority(other) < Priority("inference")
  {
  }

  ghost predicate MergedConfidence(rs: seq<Inputs>, confidence: Confidence) {
    && (confidence.Unresolved? <==> forall r :: r in rs ==> r.confidence.Unresolved?)
    && (confidence.Inferred? <==> exists r :: r in rs && r.confidence.Inferred?)
  }

  /** The running result: the recognizing scrapers merged, how many, and what is carried. */
  datatype Tally = Tally(
    final: Inputs,
    recognized: nat,
    carried: seq<Component>,
    carriedProvenance: seq<string>,
    carriedTruncated: nat)

  /** A further recognizing result joins the first. */
  function Absorb(final: Inputs, next: Inputs): Inputs {
    if final.confidence.Unresolved? then next
    else
      Inputs(
        if next.confidence.Inferred? then Inferred else final.confidence,
        final.components + next.components,
        final.services + next.services,
        final.provenance + next.provenance,
        final.errors + next.errors,
        final.truncated + next.truncated,
        if next.category != "" && (final.category == "" || Priority(next.category) > Priority(final.category))
        then next.category else final.category)
  }

  /** The result's lists hold what the recognizing scrapers gave. */
  ghost predicate Gathers(rs: seq<Inputs>, final: Inputs) {
    && final.components == Collect(rs, OwnComponents) && final.services == Collect(rs, OwnServices)
    && final.provenance == Collect(rs, OwnProvenance) && final.errors == Collect(rs, OwnErrors)
    && final.truncated == OwnTruncations(rs, Recognizes)
    && (final.confidence.Unresolved? ==> final == NOTHING)
  }

  ghost predicate Carrying(rs: seq<Inputs>, t: Tally) {
    && t.carried == Collect(rs, CarriedContainers) && t.carriedProvenance == Collect(rs, CarriedProvenance)
    && t.carriedTruncated == OwnTruncations(rs, Carries) && t.recognized == RecognizedCount(rs)
  }

  ghost predicate Tallied(rs: seq<Inputs>, t: Tally) {
    && Carrying(rs, t) && Gathers(rs, t.final)
    && MergedConfidence(rs, t.final.confidence) && BestCategory(rs, t.final.category)
  }

  function Tallying(t: Tally, r: Inputs): Tally {
    if Recognizes(r) then t.(recognized := t.recognized + 1, final := Absorb(t.final, r))
    else if Carries(r) then
      t.(carried := t.carried + Containers(r.components), carriedProvenance := t.carriedProvenance + r.provenance,
         carriedTruncated := t.carriedTruncated + r.truncated)
    else t
  }

  lemma CollectMore<T>(rs: seq<Inputs>, r: Inputs, part: Inputs -> seq<T>)
    ensures Collect(rs + [r], part) == Collect(rs, part) + part(r)
  {
    assert (rs + [r])[..|rs|] == rs;
  }

  lemma {:induction false} CollectExact<T>(rs: seq<Inputs>, part: Inputs -> seq<T>, x: T)
    ensures x in Collect(rs, part) <==> exists r :: r in rs && x in part(r)
  {
    if rs != [] {
      CollectExact(rs[..|rs| - 1], part, x);
      assert rs == rs[..|rs| - 1] + [rs[|rs| - 1]];
    }
  }

  /** A scraper contributes a component: it recognized the workload, or the component is a container. */
  ghost predicate Contributes(r: Inputs, c: Component) {
    c in r.components && (!r.confidence.Unresolved? || c.typ == "container")
  }

  lemma ContainersHold(cs: seq<Component>, c: Component)
    ensures c in Containers(cs) <==> c in cs && c.typ == "container"
  {
    var at := ContainersExact(cs);
    if c in Containers(cs) {
      var x :| 0 <= x < |Containers(cs)| && Containers(cs)[x] == c;
      assert at[x] in at;
    }
    if c in cs && c.typ == "container" {
      var i: nat :| i < |cs| && cs[i] == c;
      assert i in at;
    }
  }

  lemma CarriedExact(r: Inputs, c: Component)
    ensures c in OwnComponents(r) || c in CarriedContainers(r) <==> Contributes(r, c)
  {
    ContainersHold(r.components, c);
  }

  /** Before the cap, the document has exactly the keys of the contributed components. */
  lemma EverythingExact(rs: seq<Inputs>, k: string)
    ensures k in Keys(Everything(rs)) <==> exists r, c :: r in rs && Contributes(r, c) && DedupKey(c) == k
  {
    var all := Collect(rs, CarriedContainers) + Collect(rs, OwnComponents);
    DedupKeys(all);
    assert Keys(Everything(rs)) == Keys(all);
    forall c
      ensures c in all <==> exists r :: r in rs && Contributes(r, c)
    {
      CollectExact(rs, CarriedContainers, c);
      CollectExact(rs, OwnComponents, c);
      forall r | r in rs ensures c in OwnComponents(r) || c in CarriedContainers(r) <==> Contributes(r, c) {
        CarriedExact(r, c);
      }
    }
  }

  lemma CarriesSome(cs: seq<Component>)
    ensures Containers(cs) != [] <==> exists c :: c in cs && c.typ == "container"
  {
    if Containers(cs) != [] { ContainersHold(cs, Containers(cs)[0]); }
    if c :| c in cs && c.typ == "container" { ContainersHold(cs, c); }
  }

  /** The provenance kept is that of the recognizing scrapers and of those that carry a container; the
      errors and services kept are those of the recognizing scrapers. */
  lemma KeptExact(rs: seq<Inputs>, x: string, s: Service)
    ensures x in Collect(rs, CarriedProvenance) + Collect(rs, OwnProvenance) <==>
      exists r :: r in rs && x in r.provenance &&
        (!r.confidence.Unresolved? || exists c :: c in r.components && c.typ == "container")
    ensures x in Collect(rs, OwnErrors) <==> exists r :: r in rs && !r.confidence.Unresolved? && x in r.errors
    ensures s in Collect(rs, OwnServices) <==> exists r :: r in rs && !r.confidence.Unresolved? && s in r.services
  {
    CollectExact(rs, CarriedProvenance, x);
    CollectExact(rs, OwnProvenance, x);
    CollectExact(rs, OwnErrors, x);
    CollectExact(rs, OwnServices, s);
    forall r | r in rs
      ensures Containers(r.components) != [] <==> exists c :: c in r.components && c.typ == "container"
    {
      CarriesSome(r.components);
    }
  }

  lemma GatherStep(rs: seq<Inputs>, final: Inputs, r: Inputs)
    requires Gathers(rs, final)
    ensures Gathers(rs + [r], if Recognizes(r) then Absorb(final, r) else final)
  {
    CollectMore(rs, r, OwnComponents);
    CollectMore(rs, r, OwnServices);
    CollectMore(rs, r, OwnProvenance);
    CollectMore(rs, r, OwnErrors);
    assert (rs + [r])[..|rs|] == rs;
  }

  lemma CarryStep(rs: seq<Inputs>, t: Tally, r: Inputs)
    requires Carrying(rs, t)
    ensures Carrying(rs + [r], Tallying(t, r))
  {
    CollectMore(rs, r, CarriedContainers);
    CollectMore(rs, r, CarriedProvenance);
    assert (rs + [r])[..|rs|] == rs;
  }

  lemma CategoryStep(rs: seq<Inputs>, r: Inputs, category: string)
    requires BestCategory(rs, category)
    ensures !Recognizes(r) ==> BestCategory(rs + [r], category)
    ensures Recognizes(r) ==>
      BestCategory(rs + [r], if r.category != "" && (category == "" || Priority(r.category) > Priority(category))
        then r.category else category)
  {
    assert forall x :: x in rs + [r] <==> x in rs || x == r;
  }

  lemma ConfidenceStep(rs: seq<Inputs>, r: Inputs, confidence: Confidence)
    requires MergedConfidence(rs, confidence)
    ensures !Recognizes(r) ==> MergedConfidence(rs + [r], confidence)
    ensures Recognizes(r) ==>
      MergedConfidence(rs + [r], if confidence.Unresolved? || r.confidence.Inferred? then r.confidence else confidence)
  {
    assert forall x :: x in rs + [r] <==> x in rs || x == r;
  }

  lemma TallyStep(rs: seq<Inputs>, t: Tally, r: Inputs)
    requires Tallied(rs, t)
    ensures Tallied(rs + [r], Tallying(t, r))
  {
    GatherStep(rs, t.final, r);
    CarryStep(rs, t, r);
    CategoryStep(rs, r, t.final.category);
    ConfidenceStep(rs, r, t.final.confidence);
  }

  lemma {:induction false} NothingCarried(rs: seq<Inputs>)
    ensures Collect(rs, CarriedContainers) == [] ==>
      Collect(rs, CarriedProvenance) == [] && OwnTruncations(rs, Carries) == 0
  {
    if rs != [] { NothingCarried(rs[..|rs| - 1]); }
  }

  method TallyOne(t: Tally, inputs: Inputs) returns (next: Tally)
    ensures next == Tallying(t, inputs)
  {
    next := t;
    if inputs.confidence == Unresolved {
      var cs := ContainerComponents(inputs.components);
      if |cs| > 0 {
        next := t.(carried := t.carried + cs, carriedProvenance := t.carriedProvenance + inputs.provenance,
                   carriedTruncated := t.carriedTruncated + inputs.truncated);
      }
    } else {
      next := t.(recognized := t.recognized + 1, final := Absorb(t.final, inputs));
    }
  }

  /** The results of a loop over the scrapers, tallied; it stops at the first that fails. */
  method TallyAll(scrapes: seq<Scrape>) returns (failed: bool, t: Tally, ghost rs: seq<Inputs>)
    ensures failed <==> Failed in scrapes
    ensures !failed ==> |rs| == |scrapes| && forall i :: 0 <= i < |rs| ==> scrapes[i] == Scraped(rs[i])
    ensures !failed ==> Tallied(rs, t)
  {
    rs := [];
    t := Tally(NOTHING, 0, [], [], 0);
    for i := 0 to |scrapes|
      invariant |rs| == i && forall j :: 0 <= j < i ==> scrapes[j] == Scraped(rs[j])
      invariant Tallied(rs, t)
    {
      if scrapes[i] == Failed {
        return true, t, rs;
      }
      var inputs := scrapes[i].inputs;
      TallyStep(rs, t, inputs);
      rs := rs + [inputs];
      t := TallyOne(t, inputs);
    }
    return false, t, rs;
  }

  /** Prepends what is carried, deduplicates a merged result and applies the cap. */
  method Finish(t: Tally) returns (out: Inputs)
    ensures
      var all := t.carried + t.final.components;
      var merged := t.recognized > 1 || t.carried != [];
      var everything := if merged then Dedup(all) else all;
      && out.confidence == t.final.confidence && out.category == t.final.category && out.errors == t.final.errors
      && out.services == (if merged then FirstServices(t.final.services) else t.final.services)
      && out.provenance == (if t.carried == [] then [] else t.carriedProvenance) + t.final.provenance
      && out.components == (if |everything| > MAX_COMPONENTS then everything[..MAX_COMPONENTS] else everything)
      && |out.components| + out.truncated ==
        |everything| + t.final.truncated + (if t.carried == [] then 0 else t.carriedTruncated)
  {
    var merged := t.recognized > 1;
    out := t.final;
    if |t.carried| > 0 {
      out := out.(components := t.carried + out.components, provenance := t.carriedProvenance + out.provenance,
                  truncated := out.truncated + t.carriedTruncated);
      merged := true;
    } else {
      assert t.carried + t.final.components == t.final.components;
    }
    if merged {
      var cs := DeduplicateComponents(out.components);
      var ss := DeduplicateServices(out.services);
      out := out.(components := cs, services := ss);
    }
    var n := |out.components|;
    if n > MAX_COMPONENTS {
      out := out.(truncated := out.truncated + n - MAX_COMPONENTS, components := out.components[..MAX_COMPONENTS]);
    }
  }

  /** Merges the results of the scrapers that handle the kind.  The document never exceeds the cap;
      it is the first part of everything contributed, and what it keeps plus what it reports as
      dropped accounts for everything contributed and everything the contributors dropped.  The
      provenance of every contributor is kept, in order, and the errors of the recognizing ones. */
  method MultiScrape(scrapes: seq<Scrape>) returns (out: Outcome, ghost rs: seq<Inputs>)
    ensures out.ScraperError? <==> Failed in scrapes
    ensures out.Merged? ==> |rs| == |scrapes| && forall i :: 0 <= i < |rs| ==> scrapes[i] == Scraped(rs[i])
    ensures out.Merged? ==> |out.inputs.components| <= 256
    ensures out.Merged? ==> MergedConfidence(rs, out.inputs.confidence)
    ensures out.Merged? && out.inputs.confidence.Unresolved? ==> out.inputs == NOTHING
    ensures out.Merged? && !out.inputs.confidence.Unresolved? ==>
      && out.inputs.components <= Everything(rs)
      && (|Everything(rs)| <= 256 ==> out.inputs.components == Everything(rs))
      && |out.inputs.components| + out.inputs.truncated
         == |Everything(rs)| + OwnTruncations(rs, Recognizes) + OwnTruncations(rs, Carries)
      && out.inputs.services == AllServices(rs)
      && out.inputs.provenance == Collect(rs, CarriedProvenance) + Collect(rs, OwnProvenance)
      && out.inputs.errors == Collect(rs, OwnErrors)
      && BestCategory(rs, out.inputs.category)
  {
    var failed, t;
    failed, t, rs := TallyAll(scrapes);
    if failed {
      return ScraperError, rs;
    }
    if t.final.confidence == Unresolved {
      return Merged(t.final), rs;
    }
    NothingCarried(rs);
    var final := Finish(t);
    return Merged(final), rs;
  }
}
