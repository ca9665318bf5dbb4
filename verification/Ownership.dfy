/**
 Ownership roll-up (internal/controller/ownership_rollup.go): the upward walk that decides
 whether a workload is reported by an owner, the downward closure that decides what an owner
 records, and their agreement on arbitrary ownership graphs.

 A namespace is a map from (group, kind, name) to object.  Reads may fail: a key in `unreadable`
 is forbidden, unmapped or failing.
 */
module Ownership {
  import opened Common
  import opened WorkloadKinds

  datatype Key = Key(gk: GroupKind, name: string)

  /** `group` is None when the reference's apiVersion does not parse. */
  datatype OwnerRef = OwnerRef(group: Option<string>, kind: string, name: string, uid: UID, controller: bool)

  datatype Obj = Obj(uid: UID, refs: seq<OwnerRef>)

  datatype Cluster = Cluster(objects: map<Key, Obj>, unreadable: set<Key>)

  ghost predicate UniqueUids(c: Cluster) {
    && (forall a, b :: a in c.objects && b in c.objects && c.objects[a].uid == c.objects[b].uid ==> a == b)
    && (forall a :: a in c.objects ==> c.objects[a].uid != "")
  }

  /** The first reference marked as controller. */
  function ControllerOf(refs: seq<OwnerRef>): Option<OwnerRef> {
    if refs == [] then None
    else if refs[0].controller then Some(refs[0])
    else ControllerOf(refs[1..])
  }

  /** Reference `i` is the first that controls. */
  ghost predicate ControlsAt(refs: seq<OwnerRef>, i: nat) {
    i < |refs| && refs[i].controller && forall j :: 0 <= j < i ==> !refs[j].controller
  }

  /** The controller is the first reference with the flag, and there is none exactly when no reference
      has it. */
  lemma {:induction false} ControllerExact(refs: seq<OwnerRef>)
    ensures ControllerOf(refs).None? <==> forall r :: r in refs ==> !r.controller
    ensures forall i: nat :: ControlsAt(refs, i) ==> ControllerOf(refs) == Some(refs[i])
    ensures ControllerOf(refs).Some? ==> exists i: nat :: ControlsAt(refs, i)
  {
    if refs != [] {
      var rest := refs[1..];
      ControllerExact(rest);
      assert refs == [refs[0]] + rest;
      if refs[0].controller {
        assert ControlsAt(refs, 0);
      } else {
        forall i: nat | ControlsAt(refs, i)
          ensures ControlsAt(rest, i - 1)
        {
          assert forall j :: 0 <= j < i - 1 ==> rest[j] == refs[j + 1];
        }
        if i: nat :| ControlsAt(rest, i) {
          assert forall j :: 0 < j < i + 1 ==> refs[j] == rest[j - 1];
          assert ControlsAt(refs, i + 1);
        }
      }
    }
  }

  const MAX_DEPTH := 6

  // -------------------------------------------------------------------------- the upward walk

  /** The controller owner, if its reference parses, it can be read, and its UID is the one
      referred to. */
  function Up(c: Cluster, refs: seq<OwnerRef>): (k: Option<Key>)
    ensures k.Some? ==> k.value in c.objects
  {
    match ControllerOf(refs)
    case None => None
    case Some(ref) =>
      if ref.group.None? then None
      else
        var k := Key(GroupKind(ref.group.value, ref.kind), ref.name);
        if k in c.objects && k !in c.unreadable && c.objects[k].uid == ref.uid then Some(k) else None
  }

  ghost predicate RefersTo(c: Cluster, ref: OwnerRef, k: Key) {
    && ref.group == Some(k.gk.group) && ref.kind == k.gk.kind && ref.name == k.name
    && k in c.objects && k !in c.unreadable && c.objects[k].uid == ref.uid
  }

  /** The owner one hop up is the object the first controlling reference names, when the reference
      parses, the object can be read and has the UID referred to; otherwise there is none. */
  lemma UpExact(c: Cluster, refs: seq<OwnerRef>, k: Key)
    ensures Up(c, refs) == Some(k) <==> exists i: nat :: ControlsAt(refs, i) && RefersTo(c, refs[i], k)
  {
    ControllerExact(refs);
    if i: nat :| ControlsAt(refs, i) {
      assert ControllerOf(refs) == Some(refs[i]);
    }
  }

  datatype Outcome = NoOwner | Tracked(owner: Key, uid: UID) | Unresolved

  function Walk(c: Cluster, refs: seq<OwnerRef>, owns: set<GroupKind>, depth: nat): Outcome
    decreases depth
  {
    if depth == 0 then Unresolved
    else if ControllerOf(refs).None? then NoOwner
    else match Up(c, refs)
      case None => Unresolved
      case Some(k) =>
        if k.gk in owns then Tracked(k, c.objects[k].uid)
        else Walk(c, c.objects[k].refs, owns, depth - 1)
  }

  /** Walks controller references upward, one read per hop. */
  method ResolveTrackedOwner(c: Cluster, refs: seq<OwnerRef>, owns: set<GroupKind>) returns (outcome: Outcome)
    ensures outcome == Walk(c, refs, owns, MAX_DEPTH)
  {
    var cur := refs;
    var depth := 0;
    while depth < MAX_DEPTH
      invariant 0 <= depth <= MAX_DEPTH
      invariant Walk(c, refs, owns, MAX_DEPTH) == Walk(c, cur, owns, MAX_DEPTH - depth)
    {
      var controller := ControllerOf(cur);
      if controller.None? {
        return NoOwner;
      }
      var ref := controller.value;
      if ref.group.None? {
        return Unresolved;
      }
      var k := Key(GroupKind(ref.group.value, ref.kind), ref.name);
      if k !in c.objects || k in c.unreadable {
        return Unresolved;
      }
      if c.objects[k].uid != ref.uid {
        return Unresolved;
      }
      if k.gk in owns {
        return Tracked(k, ref.uid);
      }
      cur := c.objects[k].refs;
      depth := depth + 1;
    }
    return Unresolved;
  }

  predicate UidIs(c: Cluster, k: Key, uid: UID) { k in c.objects && c.objects[k].uid == uid }

  /** `o` is the nearest ancestor of an absorbing kind, `n` resolvable hops up. */
  ghost predicate NearestOwner(c: Cluster, refs: seq<OwnerRef>, owns: set<GroupKind>, n: nat, o: Key)
    decreases n
  {
    n > 0 && Up(c, refs).Some? &&
    var k := Up(c, refs).value;
    if k.gk in owns then n == 1 && k == o
    else NearestOwner(c, c.objects[k].refs, owns, n - 1, o)
  }

  /** A walk that finds an owner finds the nearest one, within the depth bound ... */
  lemma {:induction false} WalkFindsNearest(c: Cluster, refs: seq<OwnerRef>, owns: set<GroupKind>, depth: nat)
      returns (n: nat)
    requires Walk(c, refs, owns, depth).Tracked?
    ensures
      var t := Walk(c, refs, owns, depth);
      0 < n <= depth && NearestOwner(c, refs, owns, n, t.owner) && UidIs(c, t.owner, t.uid)
    decreases depth
  {
    var k := Up(c, refs).value;
    if k.gk in owns {
      n := 1;
    } else {
      n := WalkFindsNearest(c, c.objects[k].refs, owns, depth - 1);
      n := n + 1;
    }
  }

  /** ... and a nearest owner within the bound is found. */
  lemma {:induction false} NearestIsFound(c: Cluster, refs: seq<OwnerRef>, owns: set<GroupKind>, depth: nat, n: nat,
                                          o: Key)
    requires NearestOwner(c, refs, owns, n, o) && n <= depth
    ensures o in c.objects && o.gk in owns && Walk(c, refs, owns, depth) == Tracked(o, c.objects[o].uid)
    decreases n
  {
    var k := Up(c, refs).value;
    if k.gk !in owns {
      NearestIsFound(c, c.objects[k].refs, owns, depth - 1, n - 1, o);
    }
  }

  /** `n` resolvable hops up, past no absorbing kind, is an object that nothing controls. */
  ghost predicate EndsAt(c: Cluster, refs: seq<OwnerRef>, owns: set<GroupKind>, n: nat)
    decreases n
  {
    if n == 0 then forall r :: r in refs ==> !r.controller
    else
      Up(c, refs).Some? && Up(c, refs).value.gk !in owns && EndsAt(c, c.objects[Up(c, refs).value].refs, owns, n - 1)
  }

  /** A walk that finds no owner came to the end of the chain within the bound ... */
  lemma {:induction false} NoOwnerEnds(c: Cluster, refs: seq<OwnerRef>, owns: set<GroupKind>, depth: nat)
      returns (n: nat)
    requires Walk(c, refs, owns, depth).NoOwner?
    ensures n < depth && EndsAt(c, refs, owns, n)
    decreases depth
  {
    n := 0;
    ControllerExact(refs);
    if ControllerOf(refs).Some? {
      n := NoOwnerEnds(c, c.objects[Up(c, refs).value].refs, owns, depth - 1);
      n := n + 1;
    }
  }

  /** ... and a chain that ends within the bound has no owner.  Every other walk is unresolved. */
  lemma {:induction false} EndsIsNoOwner(c: Cluster, refs: seq<OwnerRef>, owns: set<GroupKind>, depth: nat, n: nat)
    requires EndsAt(c, refs, owns, n) && n < depth
    ensures Walk(c, refs, owns, depth).NoOwner?
    decreases n
  {
    ControllerExact(refs);
    if n > 0 { EndsIsNoOwner(c, c.objects[Up(c, refs).value].refs, owns, depth - 1, n - 1); }
  }

  // ----------------------------------------------------------------------- the downward closure

  datatype Node = Node(gk: GroupKind, name: string, owner: UID)

  function OwnerUid(refs: seq<OwnerRef>): UID {
    match ControllerOf(refs)
    case None => ""
    case Some(ref) => ref.uid
  }

  /** The graph built from the kinds that could be listed. */
  ghost function Nodes(c: Cluster, listed: set<GroupKind>): (nodes: map<UID, Node>)
    requires UniqueUids(c)
    ensures forall k :: k in c.objects && k.gk in listed ==>
              c.objects[k].uid in nodes && nodes[c.objects[k].uid] == Node(k.gk, k.name, OwnerUid(c.objects[k].refs))
    ensures forall u :: u in nodes ==> exists k :: k in c.objects && k.gk in listed && c.objects[k].uid == u
  {
    map k | k in c.objects && k.gk in listed :: c.objects[k].uid := Node(k.gk, k.name, OwnerUid(c.objects[k].refs))
  }

  /** The controller chain of `u` reaches the root within the graph, in at most `n` further hops. */
  ghost predicate ReachesIn(nodes: map<UID, Node>, root: UID, u: UID, n: nat)
    decreases n
  {
    u in nodes &&
    (nodes[u].owner == root || (n > 0 && ReachesIn(nodes, root, nodes[u].owner, n - 1)))
  }

  ghost predicate Reaches(nodes: map<UID, Node>, root: UID, u: UID) {
    exists n: nat :: ReachesIn(nodes, root, u, n)
  }

  ghost predicate ClosedUnderOwnership(nodes: map<UID, Node>, root: UID, s: set<UID>) {
    forall u :: u in nodes && (nodes[u].owner == root || nodes[u].owner in s) ==> u in s
  }

  lemma {:induction false} ClosedContains(nodes: map<UID, Node>, root: UID, s: set<UID>, u: UID, n: nat)
    requires ClosedUnderOwnership(nodes, root, s) && ReachesIn(nodes, root, u, n)
    ensures u in s
    decreases n
  {
    if nodes[u].owner != root {
      ClosedContains(nodes, root, s, nodes[u].owner, n - 1);
    }
  }

  lemma ReachesStep(nodes: map<UID, Node>, root: UID, u: UID)
    requires u in nodes && (nodes[u].owner == root || Reaches(nodes, root, nodes[u].owner))
    ensures Reaches(nodes, root, u)
  {
    if nodes[u].owner == root {
      assert ReachesIn(nodes, root, u, 0);
    } else {
      var n: nat :| ReachesIn(nodes, root, nodes[u].owner, n);
      assert ReachesIn(nodes, root, u, n + 1);
    }
  }

  /** The fixpoint loop ends and, whatever order the graph is iterated in, computes exactly the
      objects whose controller chain reaches the root. */
  method RootDescendants(nodes: map<UID, Node>, root: UID) returns (descendants: set<UID>)
    ensures forall u :: u in descendants <==> Reaches(nodes, root, u)
  {
    descendants := {};
    var changed := true;
    while changed
      invariant descendants <= nodes.Keys
      invariant forall u :: u in descendants ==> Reaches(nodes, root, u)
      invariant !changed ==> ClosedUnderOwnership(nodes, root, descendants)
      decreases nodes.Keys - descendants, changed
    {
      ghost var before := descendants;
      changed := false;
      var todo := nodes.Keys;
      while todo != {}
        invariant todo <= nodes.Keys && before <= descendants <= nodes.Keys
        invariant changed <==> descendants != before
        invariant forall u :: u in descendants ==> Reaches(nodes, root, u)
        invariant !changed ==>
          forall u :: u in nodes && u !in todo && (nodes[u].owner == root || nodes[u].owner in descendants) ==>
            u in descendants
        decreases todo
      {
        var u :| u in todo;
        todo := todo - {u};
        if u !in descendants {
          if nodes[u].owner == root {
            ReachesStep(nodes, root, u);
            descendants := descendants + {u};
            changed := true;
          } else if nodes[u].owner in descendants {
            ReachesStep(nodes, root, u);
            descendants := descendants + {u};
            changed := true;
          }
        }
      }
    }
    forall u | Reaches(nodes, root, u)
      ensures u in descendants
    {
      var n: nat :| ReachesIn(nodes, root, u, n);
      ClosedContains(nodes, root, descendants, u, n);
    }
  }

  /** Descendants of a descendant are descendants. */
  lemma {:induction false} ReachesTransitive(nodes: map<UID, Node>, top: UID, mid: UID, u: UID, n: nat)
    requires ReachesIn(nodes, mid, u, n) && Reaches(nodes, top, mid)
    ensures Reaches(nodes, top, u)
    decreases n
  {
    if nodes[u].owner != mid {
      ReachesTransitive(nodes, top, mid, nodes[u].owner, n - 1);
    }
    ReachesStep(nodes, top, u);
  }

  // ------------------------------------------------------------------ the two directions agree

  /** Every object from `w` up to, but not including, the owner `n` hops away is of a listed kind. */
  ghost predicate ChainListed(c: Cluster, w: Key, n: nat, listed: set<GroupKind>)
    requires w in c.objects
    decreases n
  {
    w.gk in listed &&
    (n > 1 && Up(c, c.objects[w].refs).Some? ==> ChainListed(c, Up(c, c.objects[w].refs).value, n - 1, listed))
  }

  lemma UpOwnerUid(c: Cluster, refs: seq<OwnerRef>)
    requires Up(c, refs).Some?
    ensures OwnerUid(refs) == c.objects[Up(c, refs).value].uid
  {
  }

  lemma {:induction false} ListedChainReaches(c: Cluster, w: Key, owns: set<GroupKind>, n: nat, o: Key,
                                              listed: set<GroupKind>)
    requires UniqueUids(c) && w in c.objects && NearestOwner(c, c.objects[w].refs, owns, n, o)
    requires ChainListed(c, w, n, listed)
    ensures o in c.objects && Reaches(Nodes(c, listed), c.objects[o].uid, c.objects[w].uid)
    decreases n
  {
    var nodes, refs := Nodes(c, listed), c.objects[w].refs;
    var k := Up(c, refs).value;
    UpOwnerUid(c, refs);
    if k.gk !in owns {
      ListedChainReaches(c, k, owns, n - 1, o, listed);
    }
    ReachesStep(nodes, c.objects[o].uid, c.objects[w].uid);
  }

  lemma {:induction false} ReachingChainListed(c: Cluster, w: Key, owns: set<GroupKind>, n: nat, o: Key,
                                               listed: set<GroupKind>, m: nat)
    requires UniqueUids(c) && w in c.objects && NearestOwner(c, c.objects[w].refs, owns, n, o) && o in c.objects
    requires ReachesIn(Nodes(c, listed), c.objects[o].uid, c.objects[w].uid, m)
    ensures ChainListed(c, w, n, listed)
    decreases n
  {
    var nodes, refs := Nodes(c, listed), c.objects[w].refs;
    var k := Up(c, refs).value;
    UpOwnerUid(c, refs);
    assert w.gk in listed;
    if k.gk !in owns {
      NearestIsFound(c, c.objects[k].refs, owns, n - 1, n - 1, o);
      assert k != o;
      ReachingChainListed(c, k, owns, n - 1, o, listed, m - 1);
    }
  }

  /** A suppressed workload is in the descendant set of the owner that absorbed it exactly when
      every object on its chain below that owner is of a kind the owner lists. */
  lemma SuppressedIffRecorded(c: Cluster, w: Key, owns: set<GroupKind>, listed: set<GroupKind>, depth: nat)
      returns (n: nat)
    requires UniqueUids(c) && w in c.objects && Walk(c, c.objects[w].refs, owns, depth).Tracked?
    ensures
      var t := Walk(c, c.objects[w].refs, owns, depth);
      && 0 < n <= depth && NearestOwner(c, c.objects[w].refs, owns, n, t.owner)
      && (Reaches(Nodes(c, listed), t.uid, c.objects[w].uid) <==> ChainListed(c, w, n, listed))
  {
    n := WalkFindsNearest(c, c.objects[w].refs, owns, depth);
    var t := Walk(c, c.objects[w].refs, owns, depth);
    if ChainListed(c, w, n, listed) {
      ListedChainReaches(c, w, owns, n, t.owner, listed);
    }
    if Reaches(Nodes(c, listed), t.uid, c.objects[w].uid) {
      var m: nat :| ReachesIn(Nodes(c, listed), t.uid, c.objects[w].uid, m);
      ReachingChainListed(c, w, owns, n, t.owner, listed, m);
    }
  }

  /** `a` is `n` resolvable hops above. */
  ghost predicate Ancestor(c: Cluster, refs: seq<OwnerRef>, n: nat, a: Key)
    decreases n
  {
    n > 0 && Up(c, refs).Some? &&
    var k := Up(c, refs).value;
    if n == 1 then k == a else Ancestor(c, c.objects[k].refs, n - 1, a)
  }

  /** Every descendant whose chain is resolvable within the depth bound is suppressed: the walk
      up from it meets the root, or a nearer absorbing owner. */
  lemma {:induction false} ChainSuppresses(c: Cluster, refs: seq<OwnerRef>, owns: set<GroupKind>, n: nat, a: Key,
                                           depth: nat)
    requires Ancestor(c, refs, n, a) && a.gk in owns && n <= depth
    ensures Walk(c, refs, owns, depth).Tracked?
    decreases n
  {
    var k := Up(c, refs).value;
    if k.gk !in owns {
      ChainSuppresses(c, c.objects[k].refs, owns, n - 1, a, depth - 1);
    }
  }

  // ------------------------------------------------------ one workload, one document, no gaps

  /** The owner gate: the workload is reported on its own. */
  predicate Passes(c: Cluster, w: Key, owns: set<GroupKind>)
    requires w in c.objects
  {
    !Walk(c, c.objects[w].refs, owns, MAX_DEPTH).Tracked?
  }

  /** An ancestor of an absorbing kind, at most `depth` resolvable hops up. */
  ghost predicate HasAbsorber(c: Cluster, refs: seq<OwnerRef>, owns: set<GroupKind>, depth: nat) {
    exists n: nat, o :: n <= depth && NearestOwner(c, refs, owns, n, o)
  }

  /** A workload passes the gate if and only if none of its six nearest resolvable ancestors is of an
      absorbing kind. */
  lemma PassesExactly(c: Cluster, w: Key, owns: set<GroupKind>)
    requires w in c.objects
    ensures Passes(c, w, owns) <==> !HasAbsorber(c, c.objects[w].refs, owns, 6)
  {
    var refs := c.objects[w].refs;
    if HasAbsorber(c, refs, owns, 6) {
      var n: nat, o :| n <= 6 && NearestOwner(c, refs, owns, n, o);
      NearestIsFound(c, refs, owns, MAX_DEPTH, n, o);
    } else if !Passes(c, w, owns) {
      var n := WalkFindsNearest(c, refs, owns, MAX_DEPTH);
    }
  }

  /** A plain owner is no controller: a workload without a controlling reference passes the gate, is
      walked to no owner, and is in no root's descendant set. */
  lemma UncontrolledPasses(c: Cluster, w: Key, owns: set<GroupKind>, listed: set<GroupKind>, root: UID)
    requires UniqueUids(c) && w in c.objects && root != ""
    requires forall r :: r in c.objects[w].refs ==> !r.controller
    ensures Walk(c, c.objects[w].refs, owns, MAX_DEPTH).NoOwner? && Passes(c, w, owns)
    ensures !Reaches(Nodes(c, listed), root, c.objects[w].uid)
  {
    ControllerExact(c.objects[w].refs);
    var nodes := Nodes(c, listed);
    forall n: nat
      ensures !ReachesIn(nodes, root, c.objects[w].uid, n)
    {
      assert c.objects[w].uid in nodes ==> nodes[c.objects[w].uid].owner == "";
      assert n > 0 ==> !ReachesIn(nodes, root, "", n - 1);
    }
  }

  /** Ownership has no cycles: every owner ranks below what it owns. */
  ghost predicate Acyclic(c: Cluster, rank: map<Key, nat>) {
    forall k :: k in c.objects && Up(c, c.objects[k].refs).Some? ==>
      k in rank && Up(c, c.objects[k].refs).value in rank && rank[Up(c, c.objects[k].refs).value] < rank[k]
  }

  lemma {:induction false} OwnerRanksLower(c: Cluster, w: Key, owns: set<GroupKind>, n: nat, o: Key,
                                           rank: map<Key, nat>)
    requires w in c.objects && NearestOwner(c, c.objects[w].refs, owns, n, o) && Acyclic(c, rank)
    ensures o in c.objects && o.gk in owns && o in rank && w in rank && rank[o] < rank[w]
    decreases n
  {
    var k := Up(c, c.objects[w].refs).value;
    if k.gk !in owns { OwnerRanksLower(c, k, owns, n - 1, o, rank); }
  }

  /** The gate suppresses `w` in favour of `o`, `n` hops up. */
  ghost predicate Absorbs(c: Cluster, owns: set<GroupKind>, w: Key, n: nat, o: Key) {
    w in c.objects && w.gk in owns && n <= MAX_DEPTH && NearestOwner(c, c.objects[w].refs, owns, n, o)
  }

  /** Every workload of a reported kind that the gate suppresses has only listed kinds on its chain
      below the owner that absorbs it. */
  ghost predicate SuppressedAreListed(c: Cluster, owns: set<GroupKind>, listed: set<GroupKind>) {
    forall w, n: nat, o :: Absorbs(c, owns, w, n, o) ==> ChainListed(c, w, n, listed)
  }

  /** The roles a kind can have: its workloads are reported and absorb, a root lists them, and its
      roots build a descendant list. */
  datatype Roles = Roles(owns: set<GroupKind>, listed: set<GroupKind>, builders: set<GroupKind>)

  /** `a` passes the gate, builds a descendant list, and `w` is in it. */
  ghost predicate RecordedBy(c: Cluster, w: Key, a: Key, roles: Roles)
    requires UniqueUids(c) && w in c.objects
  {
    && a in c.objects && a.gk in roles.owns && a.gk in roles.builders && Passes(c, a, roles.owns)
    && Reaches(Nodes(c, roles.listed), c.objects[a].uid, c.objects[w].uid)
  }

  /** `w` passes the gate and has its own document, or a document records it. */
  ghost predicate Reported(c: Cluster, w: Key, roles: Roles)
    requires UniqueUids(c) && w in c.objects
  {
    Passes(c, w, roles.owns) || exists a :: RecordedBy(c, w, a, roles)
  }

  /** An owner that absorbs a workload of a reported kind and itself passes the gate builds a
      descendant list, or a root above it records it. */
  ghost predicate PassingAbsorbersRecord(c: Cluster, roles: Roles)
    requires UniqueUids(c)
  {
    forall w, n: nat, o :: Absorbs(c, roles.owns, w, n, o) && o in c.objects && Passes(c, o, roles.owns) ==>
      o.gk in roles.builders || exists a :: RecordedBy(c, o, a, roles)
  }

  /** What a root records of an owner, it records of everything in that owner's descendant set. */
  lemma RecordsBelow(c: Cluster, w: Key, o: Key, a: Key, roles: Roles)
    requires UniqueUids(c) && w in c.objects && o in c.objects && RecordedBy(c, o, a, roles)
    requires Reaches(Nodes(c, roles.listed), c.objects[o].uid, c.objects[w].uid)
    ensures RecordedBy(c, w, a, roles)
  {
    var nodes := Nodes(c, roles.listed);
    var m: nat :| ReachesIn(nodes, c.objects[o].uid, c.objects[w].uid, m);
    ReachesTransitive(nodes, c.objects[a].uid, c.objects[o].uid, c.objects[w].uid, m);
  }

  /** In every acyclic ownership graph, every workload of a reported kind is reported: it passes
      the owner gate, or it lies in the descendant set of an ancestor that passes it, is of a
      reported kind and builds a descendant list. */
  lemma {:induction false} EveryWorkloadReported(c: Cluster, w: Key, roles: Roles, rank: map<Key, nat>)
    requires UniqueUids(c) && Acyclic(c, rank)
    requires SuppressedAreListed(c, roles.owns, roles.listed) && PassingAbsorbersRecord(c, roles)
    requires w in c.objects && w.gk in roles.owns
    ensures Reported(c, w, roles)
    decreases if w in rank then rank[w] + 1 else 0
  {
    if !Passes(c, w, roles.owns) {
      var refs := c.objects[w].refs;
      var n := WalkFindsNearest(c, refs, roles.owns, MAX_DEPTH);
      var o := Walk(c, refs, roles.owns, MAX_DEPTH).owner;
      assert Absorbs(c, roles.owns, w, n, o);
      OwnerRanksLower(c, w, roles.owns, n, o, rank);
      ListedChainReaches(c, w, roles.owns, n, o, roles.listed);
      EveryWorkloadReported(c, o, roles, rank);
      if Passes(c, o, roles.owns) && o.gk in roles.builders {
        assert RecordedBy(c, w, o, roles);
      } else {
        var a :| RecordedBy(c, o, a, roles);
        RecordsBelow(c, w, o, a, roles);
      }
    }
  }

  /** A root of a reported kind that records a workload is the owner that absorbs it, or records that
      owner: none lies strictly between the two.  So the chain between them is listed. */
  lemma {:induction false} RecorderAbove(c: Cluster, w: Key, roles: Roles, n: nat, o: Key, a: Key, m: nat)
    requires UniqueUids(c) && w in c.objects && NearestOwner(c, c.objects[w].refs, roles.owns, n, o)
    requires a in c.objects && a.gk in roles.owns
    requires ReachesIn(Nodes(c, roles.listed), c.objects[a].uid, c.objects[w].uid, m)
    ensures ChainListed(c, w, n, roles.listed) && o in c.objects
    ensures a == o || Reaches(Nodes(c, roles.listed), c.objects[a].uid, c.objects[o].uid)
    decreases n
  {
    var refs := c.objects[w].refs;
    var k := Up(c, refs).value;
    UpOwnerUid(c, refs);
    assert w.gk in roles.listed;
    if k.gk !in roles.owns {
      assert k != a;
      RecorderAbove(c, k, roles, n - 1, o, a, m - 1);
    }
  }

  /** A recorded workload has a listed chain, and its absorbing owner builds or is recorded itself. */
  lemma RecordedNeeds(c: Cluster, w: Key, roles: Roles, n: nat, o: Key, a: Key)
    requires UniqueUids(c) && w in c.objects && NearestOwner(c, c.objects[w].refs, roles.owns, n, o)
    requires RecordedBy(c, w, a, roles)
    ensures ChainListed(c, w, n, roles.listed) && o in c.objects
    ensures o.gk in roles.builders || RecordedBy(c, o, a, roles)
  {
    var m: nat :| ReachesIn(Nodes(c, roles.listed), c.objects[a].uid, c.objects[w].uid, m);
    RecorderAbove(c, w, roles, n, o, a, m);
  }

  /** Exactly when: in every acyclic namespace, every workload of a reported kind is reported if and
      only if every suppressed one has a listed chain, and every absorbing owner that passes the gate
      builds a descendant list or is recorded by a root above it. */
  lemma AllReportedExactly(c: Cluster, roles: Roles, rank: map<Key, nat>)
    requires UniqueUids(c) && Acyclic(c, rank)
    ensures (forall w :: w in c.objects && w.gk in roles.owns ==> Reported(c, w, roles))
            <==> SuppressedAreListed(c, roles.owns, roles.listed) && PassingAbsorbersRecord(c, roles)
  {
    if SuppressedAreListed(c, roles.owns, roles.listed) && PassingAbsorbersRecord(c, roles) {
      forall w | w in c.objects && w.gk in roles.owns
        ensures Reported(c, w, roles)
      {
        EveryWorkloadReported(c, w, roles, rank);
      }
    }
    if forall w :: w in c.objects && w.gk in roles.owns ==> Reported(c, w, roles) {
      forall w, n: nat, o | Absorbs(c, roles.owns, w, n, o)
        ensures ChainListed(c, w, n, roles.listed)
        ensures o in c.objects ==> o.gk in roles.builders || exists a :: RecordedBy(c, o, a, roles)
      {
        NearestIsFound(c, c.objects[w].refs, roles.owns, MAX_DEPTH, n, o);
        var a :| RecordedBy(c, w, a, roles);
        RecordedNeeds(c, w, roles, n, o, a);
      }
    }
  }

  /** An ordinary namespace: a Deployment with its ReplicaSet and a pod. */
  const WEB_NAMESPACE := Cluster(map[
    Key(GroupKind("apps", "Deployment"), "web") := Obj("d", []),
    Key(GroupKind("apps", "ReplicaSet"), "web-1") :=
      Obj("rs", [OwnerRef(Some("apps"), "Deployment", "web", "d", true)]),
    Key(GroupKind("", "Pod"), "web-1-x") := Obj("p", [OwnerRef(Some("apps"), "ReplicaSet", "web-1", "rs", true)])
  ], {})

  /** Its ReplicaSet and pod are of no reported kind, so nothing is asked of their chains, whatever
      the owners list and build. */
  lemma OrdinaryNamespaceCovered(roles: Roles)
    requires GroupKind("apps", "ReplicaSet") !in roles.owns && GroupKind("", "Pod") !in roles.owns
    ensures UniqueUids(WEB_NAMESPACE)
    ensures SuppressedAreListed(WEB_NAMESPACE, roles.owns, roles.listed) && PassingAbsorbersRecord(WEB_NAMESPACE, roles)
  {
    var c := WEB_NAMESPACE;
    forall w, n: nat, o
      ensures !Absorbs(c, roles.owns, w, n, o)
    {
      if w in c.objects && w.gk in roles.owns { assert Up(c, c.objects[w].refs).None?; }
    }
  }

  /** No double reporting: of two workloads of reported kinds on one chain, resolvable within the
      depth bound, the lower one does not pass the gate. */
  lemma ChainReportedOnce(c: Cluster, w: Key, a: Key, owns: set<GroupKind>, n: nat)
    requires w in c.objects && Ancestor(c, c.objects[w].refs, n, a) && n <= MAX_DEPTH && a.gk in owns
    ensures !Passes(c, w, owns)
  {
    ChainSuppresses(c, c.objects[w].refs, owns, n, a, MAX_DEPTH);
  }

  /** Shrinking the allowlist never newly suppresses a workload. */
  lemma {:induction false} ShrinkingNeverSuppresses(c: Cluster, refs: seq<OwnerRef>, fewer: set<GroupKind>,
                                                    owns: set<GroupKind>, depth: nat)
    requires fewer <= owns && Walk(c, refs, fewer, depth).Tracked?
    ensures Walk(c, refs, owns, depth).Tracked?
    decreases depth
  {
    var k := Up(c, refs).value;
    if k.gk !in owns {
      ShrinkingNeverSuppresses(c, c.objects[k].refs, fewer, owns, depth - 1);
    }
  }

  // ------------------------------------------------------------------ a kind that is not listed

  /** The kinds `rootDescendants` lists when LeaderWorkerSets are tracked. */
  const LISTED: set<GroupKind> := {
    GroupKind("apps", "Deployment"), GroupKind("apps", "ReplicaSet"), GroupKind("apps", "StatefulSet"),
    GroupKind("batch", "Job"), GroupKind("leaderworkerset.x-k8s.io", "LeaderWorkerSet"),
    GroupKind("nvidia.com", "DynamoComponentDeployment"), GroupKind("grove.io", "PodCliqueSet"),
    GroupKind("grove.io", "PodCliqueScalingGroup"), GroupKind("grove.io", "PodClique")
  }

  /** The kinds whose reconcilers call `rootDescendants`. */
  const BUILDERS: set<GroupKind> := {
    GroupKind("batch", "CronJob"), GroupKind("serving.kserve.io", "InferenceService"),
    GroupKind("apps.nvidia.com", "NIMService"), GroupKind("nvidia.com", "DynamoGraphDeployment"),
    GroupKind("nvidia.com", "DynamoComponentDeployment"), GroupKind("leaderworkerset.x-k8s.io", "LeaderWorkerSet"),
    GroupKind("disaggregatedset.x-k8s.io", "DisaggregatedSet")
  }

  const DAEMON_SET := GroupKind("apps", "DaemonSet")

  /** DaemonSet is a reported kind that is never listed: a DaemonSet with an absorbing owner is
      suppressed, and no document of any root records it, whichever of the lists succeed. */
  lemma DaemonSetVanishes(c: Cluster, w: Key, owns: set<GroupKind>, listed: set<GroupKind>, root: UID)
    requires UniqueUids(c) && w in c.objects && w.gk == DAEMON_SET && listed <= LISTED
    requires Walk(c, c.objects[w].refs, owns, MAX_DEPTH).Tracked?
    ensures w.gk in KNOWN && !Passes(c, w, owns)
    ensures !Reaches(Nodes(c, listed), root, c.objects[w].uid)
  {
    assert KNOWN[2] == w.gk;
    assert w.gk !in LISTED;
    assert c.objects[w].uid !in Nodes(c, listed);
  }

  const NIM_SERVICE := GroupKind("apps.nvidia.com", "NIMService")

  /** A NIMService that runs its model in a DaemonSet. */
  const NIM_NAMESPACE := Cluster(map[
    Key(NIM_SERVICE, "llm") := Obj("nim", []),
    Key(DAEMON_SET, "llm") := Obj("ds", [OwnerRef(Some("apps.nvidia.com"), "NIMService", "llm", "nim", true)])
  ], {})

  lemma NimSuppresses(owns: set<GroupKind>)
    requires NIM_SERVICE in owns
    ensures
      var c := NIM_NAMESPACE;
      && UniqueUids(c) && Passes(c, Key(NIM_SERVICE, "llm"), owns)
      && Walk(c, c.objects[Key(DAEMON_SET, "llm")].refs, owns, MAX_DEPTH).Tracked?
  {
    var c, w := NIM_NAMESPACE, Key(DAEMON_SET, "llm");
    assert Up(c, c.objects[w].refs) == Some(Key(NIM_SERVICE, "llm"));
  }

  /** There the DaemonSet is not reported, though its absorber passes the gate and builds. */
  lemma DaemonSetOfNimServiceUnreported(owns: set<GroupKind>, listed: set<GroupKind>)
    requires DAEMON_SET in owns && NIM_SERVICE in owns && listed <= LISTED
    ensures
      var c := NIM_NAMESPACE;
      && UniqueUids(c) && Passes(c, Key(NIM_SERVICE, "llm"), owns) && NIM_SERVICE in BUILDERS
      && !Reported(c, Key(DAEMON_SET, "llm"), Roles(owns, listed, BUILDERS))
  {
    var c, w := NIM_NAMESPACE, Key(DAEMON_SET, "llm");
    NimSuppresses(owns);
    forall a | a in c.objects
      ensures !Reaches(Nodes(c, listed), c.objects[a].uid, c.objects[w].uid)
    {
      DaemonSetVanishes(c, w, owns, listed, c.objects[a].uid);
    }
  }

  // ------------------------------------------------------------- an absorbing kind that builds no list

  const DEPLOYMENT := GroupKind("apps", "Deployment")

  /** An operator, itself a Deployment, that controls the Deployment of its operand. */
  const OPERATOR_NAMESPACE := Cluster(map[
    Key(DEPLOYMENT, "operator") := Obj("op", []),
    Key(DEPLOYMENT, "server") := Obj("srv", [OwnerRef(Some("apps"), "Deployment", "operator", "op", true)])
  ], {})

  lemma OperandChainListed(owns: set<GroupKind>)
    requires DEPLOYMENT in owns
    ensures SuppressedAreListed(OPERATOR_NAMESPACE, owns, LISTED)
  {
    var c, operator, server := OPERATOR_NAMESPACE, Key(DEPLOYMENT, "operator"), Key(DEPLOYMENT, "server");
    assert Up(c, c.objects[server].refs) == Some(operator) && Up(c, c.objects[operator].refs).None?;
    forall w, n: nat, o | Absorbs(c, owns, w, n, o)
      ensures ChainListed(c, w, n, LISTED)
    {
      assert w == server && n == 1;
    }
  }

  lemma NobodyBuilds(roles: Roles)
    requires DEPLOYMENT !in roles.builders
    ensures UniqueUids(OPERATOR_NAMESPACE)
    ensures forall a :: !RecordedBy(OPERATOR_NAMESPACE, Key(DEPLOYMENT, "server"), a, roles)
  {
  }

  /** Deployments are reported and absorb, but only the kinds in BUILDERS build a descendant list: the
      operand is suppressed by a gate-passing owner, its chain is listed, and no document records
      it. */
  lemma OperandOfDeploymentUnreported(owns: set<GroupKind>)
    requires DEPLOYMENT in owns
    ensures
      var c := OPERATOR_NAMESPACE;
      && DEPLOYMENT in KNOWN && UniqueUids(c) && Passes(c, Key(DEPLOYMENT, "operator"), owns)
      && SuppressedAreListed(c, owns, LISTED)
      && !Reported(c, Key(DEPLOYMENT, "server"), Roles(owns, LISTED, BUILDERS))
  {
    var c, operator, server := OPERATOR_NAMESPACE, Key(DEPLOYMENT, "operator"), Key(DEPLOYMENT, "server");
    assert KNOWN[0] == DEPLOYMENT;
    assert Up(c, c.objects[server].refs) == Some(operator);
    OperandChainListed(owns);
    NobodyBuilds(Roles(owns, LISTED, BUILDERS));
  }

  // ------------------------------------------------------------------------- pods find their root

  /** The name of the nearest ancestor of kind `gk`, found by reference without an identity check. */
  function RootForPod(c: Cluster, refs: seq<OwnerRef>, gk: GroupKind, depth: nat): Option<string>
    decreases depth
  {
    if depth == 0 then None
    else match ControllerOf(refs)
      case None => None
      case Some(ref) =>
        if ref.group.None? then None
        else
          var k := Key(GroupKind(ref.group.value, ref.kind), ref.name);
          if k.gk == gk then Some(ref.name)
          else if k in c.objects && k !in c.unreadable then RootForPod(c, c.objects[k].refs, gk, depth - 1)
          else None
  }

  method EnqueueRootForPod(c: Cluster, refs: seq<OwnerRef>, gk: GroupKind) returns (name: Option<string>)
    ensures name == RootForPod(c, refs, gk, MAX_DEPTH)
  {
    var cur := refs;
    var depth := 0;
    while depth < MAX_DEPTH
      invariant 0 <= depth <= MAX_DEPTH
      invariant RootForPod(c, refs, gk, MAX_DEPTH) == RootForPod(c, cur, gk, MAX_DEPTH - depth)
    {
      var controller := ControllerOf(cur);
      if controller.None? || controller.value.group.None? {
        return None;
      }
      var ref := controller.value;
      var k := Key(GroupKind(ref.group.value, ref.kind), ref.name);
      if k.gk == gk {
        return Some(ref.name);
      }
      if k !in c.objects || k in c.unreadable {
        return None;
      }
      cur := c.objects[k].refs;
      depth := depth + 1;
    }
    return None;
  }

  /** By reference alone, `n` hops up, the first owner of kind `gk` is called `name`. */
  ghost predicate NamesRoot(c: Cluster, refs: seq<OwnerRef>, gk: GroupKind, n: nat, name: string)
    decreases n
  {
    n > 0 && ControllerOf(refs).Some? &&
    var ref := ControllerOf(refs).value;
    ref.group.Some? &&
    var k := Key(GroupKind(ref.group.value, ref.kind), ref.name);
    if k.gk == gk then n == 1 && ref.name == name
    else k in c.objects && k !in c.unreadable && NamesRoot(c, c.objects[k].refs, gk, n - 1, name)
  }

  /** A name found is one the references give within the depth bound ... */
  lemma {:induction false} FoundIsNamed(c: Cluster, refs: seq<OwnerRef>, gk: GroupKind, depth: nat) returns (n: nat)
    requires RootForPod(c, refs, gk, depth).Some?
    ensures n <= depth && NamesRoot(c, refs, gk, n, RootForPod(c, refs, gk, depth).value)
    decreases depth
  {
    n := 1;
    var ref := ControllerOf(refs).value;
    var k := Key(GroupKind(ref.group.value, ref.kind), ref.name);
    if k.gk != gk {
      n := FoundIsNamed(c, c.objects[k].refs, gk, depth - 1);
      n := n + 1;
    }
  }

  /** ... and a name the references give within the bound is found. */
  lemma {:induction false} NamedIsFound(c: Cluster, refs: seq<OwnerRef>, gk: GroupKind, depth: nat, n: nat,
                                        name: string)
    requires NamesRoot(c, refs, gk, n, name) && n <= depth
    ensures RootForPod(c, refs, gk, depth) == Some(name)
    decreases n
  {
    var ref := ControllerOf(refs).value;
    var k := Key(GroupKind(ref.group.value, ref.kind), ref.name);
    if k.gk != gk { NamedIsFound(c, c.objects[k].refs, gk, depth - 1, n - 1, name); }
  }

  /** Each of the first `n` references is to an object that is there, readable, and still the one
      referred to. */
  ghost predicate IdentitiesHold(c: Cluster, refs: seq<OwnerRef>, n: nat)
    decreases n
  {
    n > 0 ==> Up(c, refs).Some? && IdentitiesHold(c, c.objects[Up(c, refs).value].refs, n - 1)
  }

  /** The name found is that of the nearest owner of its kind exactly when every reference followed
      still means the same object; the walk itself does not check that. */
  lemma {:induction false} NamedOwnsPod(c: Cluster, refs: seq<OwnerRef>, gk: GroupKind, n: nat, name: string)
    requires NamesRoot(c, refs, gk, n, name)
    ensures NearestOwner(c, refs, {gk}, n, Key(gk, name)) <==> IdentitiesHold(c, refs, n)
    decreases n
  {
    if Up(c, refs).Some? {
      var k := Up(c, refs).value;
      if k.gk != gk { NamedOwnsPod(c, c.objects[k].refs, gk, n - 1, name); }
    }
  }

  /** A pod whose resolvable chain meets a root of kind `gk` within the depth bound enqueues that
      root: the nearest of its kind. */
  lemma {:induction false} PodEnqueuesRoot(c: Cluster, refs: seq<OwnerRef>, gk: GroupKind, n: nat, root: Key,
                                           depth: nat)
    requires NearestOwner(c, refs, {gk}, n, root) && n <= depth
    ensures root.gk == gk && RootForPod(c, refs, gk, depth) == Some(root.name)
    decreases n
  {
    var k := Up(c, refs).value;
    if k.gk != gk {
      PodEnqueuesRoot(c, c.objects[k].refs, gk, n - 1, root, depth - 1);
    }
  }

  /** A reference to an earlier NIMService of the same name enqueues the present one, which does not
      own the pod. */
  lemma StaleReferenceEnqueues(n: nat, root: Key)
    ensures
      var refs := [OwnerRef(Some("apps.nvidia.com"), "NIMService", "llm", "earlier", true)];
      && RootForPod(NIM_NAMESPACE, refs, NIM_SERVICE, MAX_DEPTH) == Some("llm")
      && !NearestOwner(NIM_NAMESPACE, refs, {NIM_SERVICE}, n, root)
  {
    var refs := [OwnerRef(Some("apps.nvidia.com"), "NIMService", "llm", "earlier", true)];
    assert ControllerOf(refs) == Some(refs[0]);
    assert Up(NIM_NAMESPACE, refs).None?;
  }
}
