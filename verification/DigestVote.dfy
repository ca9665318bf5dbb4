/**
 Digest resolution from pod status (internal/scraper/inference_extract.go): the digest most pods
 report, independent of the order of pods and of map iteration.
 */
module DigestVote {
  import opened Text

  datatype ContainerStatus = ContainerStatus(name: string, image: string, imageId: string)

  datatype Pod = Pod(containers: seq<ContainerStatus>, initContainers: seq<ContainerStatus>)

  /** Image references: the normalized name of a reference, and the valid digest of an image id or
      "" when there is none. */
  datatype Images = Images(nameOf: string -> string, digestOf: string -> string)

  datatype Source = ImageReference | PodStatus | Unresolved

  /** What is looked for: a container of this name running this image. */
  datatype Query = Query(container: string, imageName: string, init: bool)

  function Statuses(p: Pod, q: Query): seq<ContainerStatus> { if q.init then p.initContainers else p.containers }

  /** The digest a status votes for, or "": the name must match, and the image name unless unknown. */
  function Vote(im: Images, q: Query, cs: ContainerStatus): string {
    if cs.name != q.container then ""
    else if cs.image != "" && im.nameOf(cs.image) != q.imageName then ""
    else im.digestOf(cs.imageId)
  }

  function StatusVotes(im: Images, q: Query, ss: seq<ContainerStatus>, d: string): nat {
    if ss == [] then 0
    else StatusVotes(im, q, ss[..|ss| - 1], d) + if Vote(im, q, ss[|ss| - 1]) == d then 1 else 0
  }

  /** How many statuses vote for `d`. */
  function Votes(im: Images, q: Query, pods: seq<Pod>, d: string): nat {
    if pods == [] then 0
    else Votes(im, q, pods[..|pods| - 1], d) + StatusVotes(im, q, Statuses(pods[|pods| - 1], q), d)
  }

  /** A status of the wanted container, running the wanted image or none it names, with digest `d`. */
  ghost predicate Reports(im: Images, q: Query, cs: ContainerStatus, d: string) {
    && cs.name == q.container && (cs.image == "" || im.nameOf(cs.image) == q.imageName)
    && im.digestOf(cs.imageId) == d
  }

  /** Status `i` of pod `p`, among its init containers or its containers as asked, reports `d`. */
  ghost predicate ReportedAt(im: Images, q: Query, pods: seq<Pod>, d: string, p: nat, i: nat) {
    && p < |pods|
    && var ss := if q.init then pods[p].initContainers else pods[p].containers;
       i < |ss| && Reports(im, q, ss[i], d)
  }

  lemma {:induction false} StatusBallots(im: Images, q: Query, ss: seq<ContainerStatus>, d: string)
      returns (at: seq<nat>)
    requires d != ""
    ensures |at| == StatusVotes(im, q, ss, d) && forall x, y :: 0 <= x < y < |at| ==> at[x] < at[y]
    ensures forall i: nat :: i in at <==> i < |ss| && Reports(im, q, ss[i], d)
  {
    at := [];
    if ss != [] {
      var n := |ss| - 1;
      at := StatusBallots(im, q, ss[..n], d);
      assert forall i :: 0 <= i < n ==> ss[..n][i] == ss[i];
      assert forall x :: 0 <= x < |at| ==> at[x] in at;
      if Reports(im, q, ss[n], d) { at := at + [n]; }
    }
  }

  ghost function Tagged(p: nat, at: seq<nat>): seq<(nat, nat)> { seq(|at|, x requires 0 <= x < |at| => (p, at[x])) }

  ghost predicate Distinct(at: seq<(nat, nat)>) { forall x, y :: 0 <= x < y < |at| ==> at[x] != at[y] }

  lemma TaggedExact(p: nat, at: seq<nat>)
    requires forall x, y :: 0 <= x < y < |at| ==> at[x] < at[y]
    ensures Distinct(Tagged(p, at)) && |Tagged(p, at)| == |at|
    ensures forall q: nat, i: nat :: (q, i) in Tagged(p, at) <==> q == p && i in at
  {
    var t := Tagged(p, at);
    forall i: nat | i in at
      ensures (p, i) in t
    {
      var x :| 0 <= x < |at| && at[x] == i;
      assert t[x] == (p, i);
    }
  }

  lemma BallotsJoin(a: seq<(nat, nat)>, b: seq<(nat, nat)>, n: nat)
    requires Distinct(a) && Distinct(b)
    requires forall p: nat, i: nat :: (p, i) in a ==> p < n
    requires forall p: nat, i: nat :: (p, i) in b ==> p == n
    ensures Distinct(a + b)
  {
    forall x, y | 0 <= x < y < |a + b|
      ensures (a + b)[x] != (a + b)[y]
    {
      if x < |a| <= y {
        assert (a[x].0, a[x].1) in a && (b[y - |a|].0, b[y - |a|].1) in b;
      }
    }
  }

  /** The votes for a digest are the statuses that report it, each counted once. */
  lemma {:induction false} BallotsExact(im: Images, q: Query, pods: seq<Pod>, d: string) returns (at: seq<(nat, nat)>)
    requires d != ""
    ensures |at| == Votes(im, q, pods, d) && Distinct(at)
    ensures forall p: nat, i: nat :: (p, i) in at <==> ReportedAt(im, q, pods, d, p, i)
  {
    at := [];
    if pods != [] {
      var n := |pods| - 1;
      var before := BallotsExact(im, q, pods[..n], d);
      var last := StatusBallots(im, q, Statuses(pods[n], q), d);
      TaggedExact(n, last);
      assert forall p: nat, i: nat :: p < n ==>
        (ReportedAt(im, q, pods[..n], d, p, i) <==> ReportedAt(im, q, pods, d, p, i));
      at := before + Tagged(n, last);
      BallotsJoin(before, Tagged(n, last), n);
    }
  }

  /** `d` has the most votes, and is the lowest among those that do. */
  ghost predicate Elected(im: Images, q: Query, pods: seq<Pod>, d: string) {
    && d != "" && Votes(im, q, pods, d) > 0
    && forall e :: e != "" ==>
         || Votes(im, q, pods, e) < Votes(im, q, pods, d)
         || (Votes(im, q, pods, e) == Votes(im, q, pods, d) && !Less(e, d))
  }

  lemma ElectedUnique(im: Images, q: Query, pods: seq<Pod>, d: string, e: string)
    requires Elected(im, q, pods, d) && Elected(im, q, pods, e)
    ensures d == e
  {
    LessTrichotomy(d, e);
  }

  predicate Better(counts: map<string, nat>, d: string, best: string)
    requires d in counts && best in counts
  {
    counts[d] > counts[best] || (counts[d] == counts[best] && Less(d, best))
  }

  /** The winner over the candidates seen so far. */
  ghost predicate Leads(counts: map<string, nat>, seen: set<string>, best: string) {
    best in counts && best in seen && forall e :: e in seen && e in counts ==> !Better(counts, e, best)
  }

  lemma LeadChange(counts: map<string, nat>, seen: set<string>, best: string, d: string)
    requires Leads(counts, seen, best) && d in counts
    ensures Leads(counts, seen + {d}, if Better(counts, d, best) then d else best)
  {
    if Better(counts, d, best) {
      forall e | e in seen + {d} && e in counts
        ensures !Better(counts, e, d)
      {
        LessTrichotomy(e, d);
        if e != d && counts[e] == counts[d] && Less(e, d) && counts[d] == counts[best] {
          LessTransitive(e, d, best);
        }
      }
    }
  }

  /** What the digest of a container is: the one in the image reference; otherwise the elected one
      among all matching statuses; otherwise, without votes, none. */
  ghost predicate Resolves(im: Images, q: Query, specDigest: string, pods: seq<Pod>, digest: string, source: Source) {
    if specDigest != "" then digest == specDigest && source == ImageReference
    else if source == Unresolved then digest == "" && forall d :: d != "" ==> Votes(im, q, pods, d) == 0
    else source == PodStatus && Elected(im, q, pods, digest)
  }

  function CountIn(counts: map<string, nat>, d: string): nat { if d in counts then counts[d] else 0 }

  method CountStatuses(im: Images, q: Query, ss: seq<ContainerStatus>, start: map<string, nat>)
      returns (counts: map<string, nat>)
    requires forall d :: d in start ==> d != "" && start[d] > 0
    ensures forall d :: d != "" ==> CountIn(counts, d) == CountIn(start, d) + StatusVotes(im, q, ss, d)
    ensures forall d :: d in counts ==> d != "" && counts[d] > 0
  {
    counts := start;
    for j := 0 to |ss|
      invariant forall d :: d != "" ==> CountIn(counts, d) == CountIn(start, d) + StatusVotes(im, q, ss[..j], d)
      invariant forall d :: d in counts ==> d != "" && counts[d] > 0
    {
      assert ss[..j + 1][..j] == ss[..j];
      var d := Vote(im, q, ss[j]);
      if d != "" {
        counts := counts[d := CountIn(counts, d) + 1];
      }
    }
    assert ss[..|ss|] == ss;
  }

  method CountVotes(im: Images, q: Query, pods: seq<Pod>) returns (counts: map<string, nat>)
    ensures forall d :: d != "" ==> CountIn(counts, d) == Votes(im, q, pods, d)
    ensures forall d :: d in counts ==> d != "" && counts[d] > 0
  {
    counts := map[];
    for i := 0 to |pods|
      invariant forall d :: d != "" ==> CountIn(counts, d) == Votes(im, q, pods[..i], d)
      invariant forall d :: d in counts ==> d != "" && counts[d] > 0
    {
      counts := CountStatuses(im, q, Statuses(pods[i], q), counts);
      assert pods[..i + 1][..i] == pods[..i];
    }
    assert pods[..|pods|] == pods;
  }

  method ResolveDigest(im: Images, q: Query, specDigest: string, pods: seq<Pod>)
      returns (digest: string, source: Source)
    ensures Resolves(im, q, specDigest, pods, digest, source)
  {
    if specDigest != "" {
      return specDigest, ImageReference;
    }
    var counts := CountVotes(im, q, pods);
    var best := "";
    var todo := counts.Keys;
    while todo != {}
      invariant todo <= counts.Keys
      invariant best == "" <==> todo == counts.Keys
      invariant best != "" ==> Leads(counts, counts.Keys - todo, best)
      decreases todo
    {
      var d :| d in todo;
      if best != "" { LeadChange(counts, counts.Keys - todo, best, d); }
      assert counts.Keys - (todo - {d}) == (counts.Keys - todo) + {d};
      todo := todo - {d};
      if best == "" || Better(counts, d, best) {
        LessTrichotomy(d, d);
        best := d;
      }
    }
    if best == "" {
      return "", Unresolved;
    }
    assert counts.Keys - {} == counts.Keys;
    return best, PodStatus;
  }

  // ----------------------------------------------------------------------- order of the pods

  lemma VotesOneMore(im: Images, q: Query, xs: seq<Pod>, p: Pod, d: string)
    ensures Votes(im, q, xs + [p], d) == Votes(im, q, xs, d) + StatusVotes(im, q, Statuses(p, q), d)
  {
    assert (xs + [p])[..|xs|] == xs;
  }

  lemma {:induction false} VotesConcat(im: Images, q: Query, xs: seq<Pod>, ys: seq<Pod>, d: string)
    ensures Votes(im, q, xs + ys, d) == Votes(im, q, xs, d) + Votes(im, q, ys, d)
  {
    if ys == [] {
      assert xs + ys == xs;
    } else {
      var init, p := ys[..|ys| - 1], ys[|ys| - 1];
      var front := xs + init;
      assert ys == init + [p];
      assert xs + ys == front + [p];
      VotesConcat(im, q, xs, init, d);
      VotesOneMore(im, q, front, p, d);
    }
  }

  lemma Position(ys: seq<Pod>, p: Pod) returns (i: nat)
    requires p in multiset(ys)
    ensures i < |ys| && ys[i] == p
  {
    i :| i < |ys| && ys[i] == p;
  }

  /** Reordering the pods changes no count. */
  lemma {:induction false} VotesPermuted(im: Images, q: Query, xs: seq<Pod>, ys: seq<Pod>, d: string)
    requires multiset(xs) == multiset(ys)
    ensures Votes(im, q, xs, d) == Votes(im, q, ys, d)
    decreases |xs|
  {
    if xs == [] {
      assert |multiset(ys)| == 0;
    } else {
      var init, p := xs[..|xs| - 1], xs[|xs| - 1];
      assert xs == init + [p];
      var i := Position(ys, p);
      var before, after := ys[..i], ys[i + 1..];
      assert ys == before + [p] + after;
      assert multiset(before + after) == multiset(ys) - multiset{p} == multiset(init);
      VotesPermuted(im, q, init, before + after, d);
      VotesConcat(im, q, before, after, d);
      VotesConcat(im, q, before + [p], after, d);
      VotesConcat(im, q, before, [p], d);
      VotesConcat(im, q, init, [p], d);
    }
  }

  /** The resolved digest and its source are the same for every permutation of the pods and every
      iteration order of the counts. */
  lemma DigestOrderIndependent(im: Images, q: Query, specDigest: string, xs: seq<Pod>, ys: seq<Pod>,
                               d: string, ds: Source, e: string, es: Source)
    requires multiset(xs) == multiset(ys)
    requires Resolves(im, q, specDigest, xs, d, ds) && Resolves(im, q, specDigest, ys, e, es)
    ensures d == e && ds == es
  {
    forall x ensures Votes(im, q, xs, x) == Votes(im, q, ys, x) { VotesPermuted(im, q, xs, ys, x); }
    if ds == PodStatus && es == PodStatus { ElectedUnique(im, q, xs, d, e); }
  }
}
