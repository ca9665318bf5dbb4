/**
 Single-flight verification cache under a hot-reloaded trust policy (verifier/cache.go,
 verifier/rekor.go, internal/sigverify/adapter.go).

 Concurrent callers are interleaved at their critical sections.  The truncated hashes that name
 signature references, trust roots and configurations are taken to be injective.  Fetching and
 cryptography are arbitrary findings.
 */
module VerifyCache {
  import opened Common
  import opened Outcome

  datatype Key = TrustUnresolved(ref: string) | UnderEpoch(ref: string, epoch: string)

  /** What a computation decided, and what it decided it from. */
  datatype Evidence = Evidence(cfg: Config, claim: Claim, findings: Findings, at: int)

  function Answer(m: Matcher, e: Evidence): Ruling { Decide(m, e.cfg, e.claim, e.findings, e.at) }

  datatype Entry = Entry(evidence: Evidence, storedAt: int, expires: int)

  function Ttl(m: Matcher, cfg: Config, e: Evidence): int {
    if Answer(m, e).verdict.Error? then ERROR_TTL else cfg.cacheTtl
  }

  // --------------------------------------------------------------------- the critical sections

  datatype Cache = Cache(entries: map<Key, Entry>, inflight: map<Key, nat>)

  datatype Begun = Hit(entry: Entry) | Wait(leader: nat) | Lead

  /** First critical section: a fresh entry, somebody to wait for, or the lead. */
  function Begin(c: Cache, key: Key, now: int): Begun {
    if key in c.entries && now < c.entries[key].expires then Hit(c.entries[key])
    else if key in c.inflight then Wait(c.inflight[key])
    else Lead
  }

  function AfterBegin(c: Cache, key: Key, now: int, caller: nat): Cache {
    if Begin(c, key, now).Lead? then c.(inflight := c.inflight[key := caller]) else c
  }

  /** Second critical section: the leader stores its result and gives up the lead. */
  function AfterFinish(m: Matcher, ttl: Config, c: Cache, key: Key, e: Evidence, now: int): Cache {
    Cache(c.entries[key := Entry(e, now, now + Ttl(m, ttl, e))], c.inflight - {key})
  }

  class ResultCache {
    const cfg: Config
    var entries: map<Key, Entry>
    var inflight: map<Key, nat>

    function View(): Cache
      reads this
    {
      Cache(entries, inflight)
    }

    constructor (cfg: Config)
      ensures this.cfg == cfg && View() == Cache(map[], map[])
    {
      this.cfg := cfg;
      entries, inflight := map[], map[];
    }

    method Enter(key: Key, now: int, caller: nat) returns (b: Begun)
      modifies this`inflight
      ensures b == Begin(old(View()), key, now) && View() == AfterBegin(old(View()), key, now, caller)
    {
      if key in entries && now < entries[key].expires {
        return Hit(entries[key]);
      }
      if key in inflight {
        return Wait(inflight[key]);
      }
      inflight := inflight[key := caller];
      return Lead;
    }

    method Finish(m: Matcher, key: Key, e: Evidence, now: int)
      modifies this
      ensures View() == AfterFinish(m, cfg, old(View()), key, e, now)
    {
      var ttl := cfg.cacheTtl;
      if Answer(m, e).verdict == Error {
        ttl := ERROR_TTL;
      }
      entries := entries[key := Entry(e, now, now + ttl)];
      inflight := inflight - {key};
    }
  }

  // ---------------------------------------------------------------------------- the system

  /** Constructing a verifier fills in the defaults. */
  function Normalize(cfg: Config): Config {
    cfg.(mode := if cfg.mode.Unset? then Public else cfg.mode,
         cacheTtl := if cfg.cacheTtl <= 0 then DEFAULT_TTL else cfg.cacheTtl)
  }

  /** A self-hosted trust root needs to say where it is. */
  predicate Constructible(cfg: Config) { cfg.mode.TufMirror? || cfg.mode.StaticBundle? ==> cfg.source != "" }

  datatype Verifier = Verifier(cfg: Config, epoch: Option<string>, cache: Cache)

  /** A caller between its critical sections.  `lookupAt` is when it consulted the cache. */
  datatype Phase =
    | Loaded
    | Attached(v: nat)
    | Keyed(v: nat, key: Key)
    | Waiting(v: nat, key: Key, lookupAt: int, leader: nat)
    | Computing(v: nat, key: Key, lookupAt: int)
    | Computed(v: nat, key: Key, lookupAt: int, evidence: Evidence)
    | Stored(v: nat, key: Key, lookupAt: int, evidence: Evidence, storedAt: int)
    | Returned(lookupAt: int, evidence: Evidence, storedAt: int)
    | NotVerified

  datatype Call = Call(claim: Claim, policy: Config, phase: Phase)

  /** `held` is the adapter's verifier and the configuration it was built for. */
  datatype State = State(
    now: int,
    policy: Option<Config>,
    held: Option<(Config, nat)>,
    verifiers: seq<Verifier>,
    calls: seq<Call>)

  datatype Step =
    | Tick(seconds: nat)
    | SetPolicy(policy: Option<Config>)
    | Invoke(claim: Claim)
    | Attach(i: nat)
    | ResolveTrust(i: nat, epoch: Option<string>)
    | LookUp(i: nat)
    | Compute(i: nat, findings: Findings)
    | Store(i: nat)
    | Publish(i: nat)
    | Wake(i: nat)

  function Moved(s: State, i: nat, phase: Phase): State
    requires i < |s.calls|
  {
    s.(calls := s.calls[i := s.calls[i].(phase := phase)])
  }

  function WithCache(s: State, v: nat, c: Cache): State
    requires v < |s.verifiers|
  {
    s.(verifiers := s.verifiers[v := s.verifiers[v].(cache := c)])
  }

  /** A call with a reference loads the policy in force; without verification it is answered at
      once. */
  function Invoked(s: State, claim: Claim): State {
    if claim.ref == "" || s.policy.None? then s
    else s.(calls := s.calls + [Call(claim, s.policy.value, Loaded)])
  }

  /** The held verifier if it was built for the call's policy, otherwise a new one with an empty
      cache. */
  function Attaching(s: State, i: nat): State
    requires i < |s.calls|
  {
    var policy := s.calls[i].policy;
    if s.held.Some? && s.held.value.0 == policy then Moved(s, i, Attached(s.held.value.1))
    else if !Constructible(policy) then Moved(s, i, NotVerified)
    else
      var v := |s.verifiers|;
      Moved(s.(verifiers := s.verifiers + [Verifier(Normalize(policy), None, Cache(map[], map[]))],
               held := Some((policy, v))), i, Attached(v))
  }

  /** The trust root is resolved once per verifier; until then failures are keyed apart. */
  function Resolving(s: State, i: nat, v: nat, epoch: Option<string>): State
    requires i < |s.calls| && v < |s.verifiers|
  {
    var known := if s.verifiers[v].epoch.Some? then s.verifiers[v].epoch else epoch;
    var ref := s.calls[i].claim.ref;
    Moved(s.(verifiers := s.verifiers[v := s.verifiers[v].(epoch := known)]), i,
          Keyed(v, if known.Some? then UnderEpoch(ref, known.value) else TrustUnresolved(ref)))
  }

  function LookingUp(s: State, i: nat, v: nat, key: Key): State
    requires i < |s.calls| && v < |s.verifiers|
  {
    var c := s.verifiers[v].cache;
    var s' := WithCache(s, v, AfterBegin(c, key, s.now, i));
    match Begin(c, key, s.now)
    case Hit(e) => Moved(s', i, Returned(s.now, e.evidence, e.storedAt))
    case Wait(leader) => Moved(s', i, Waiting(v, key, s.now, leader))
    case Lead => Moved(s', i, Computing(v, key, s.now))
  }

  /** A step that the named call cannot take leaves the state unchanged. */
  function Next(m: Matcher, s: State, step: Step): State {
    match step
    case Tick(d) => s.(now := s.now + d)
    case SetPolicy(p) => s.(policy := p)
    case Invoke(claim) => Invoked(s, claim)
    case Attach(i) => if i < |s.calls| && s.calls[i].phase.Loaded? then Attaching(s, i) else s
    case ResolveTrust(i, epoch) =>
      if i < |s.calls| && s.calls[i].phase.Attached? && s.calls[i].phase.v < |s.verifiers|
      then Resolving(s, i, s.calls[i].phase.v, epoch) else s
    case LookUp(i) =>
      if i < |s.calls| && s.calls[i].phase.Keyed? && s.calls[i].phase.v < |s.verifiers|
      then LookingUp(s, i, s.calls[i].phase.v, s.calls[i].phase.key) else s
    case Compute(i, f) =>
      if i < |s.calls| && s.calls[i].phase.Computing? && s.calls[i].phase.v < |s.verifiers|
         && Producible(f) && (s.calls[i].phase.key.TrustUnresolved? ==> f.errClass != "")
      then
        var ph := s.calls[i].phase;
        Moved(s, i, Computed(ph.v, ph.key, ph.lookupAt, Evidence(s.verifiers[ph.v].cfg, s.calls[i].claim, f, s.now)))
      else s
    case Store(i) =>
      if i < |s.calls| && s.calls[i].phase.Computed? && s.calls[i].phase.v < |s.verifiers|
      then
        var ph := s.calls[i].phase;
        var vf := s.verifiers[ph.v];
        Moved(WithCache(s, ph.v, AfterFinish(m, vf.cfg, vf.cache, ph.key, ph.evidence, s.now)), i,
              Stored(ph.v, ph.key, ph.lookupAt, ph.evidence, s.now))
      else s
    case Publish(i) =>
      if i < |s.calls| && s.calls[i].phase.Stored?
      then Moved(s, i, Returned(s.calls[i].phase.lookupAt, s.calls[i].phase.evidence, s.calls[i].phase.storedAt))
      else s
    case Wake(i) =>
      if i < |s.calls| && s.calls[i].phase.Waiting? && s.calls[i].phase.leader < |s.calls|
         && s.calls[s.calls[i].phase.leader].phase.Returned?
      then
        var done := s.calls[s.calls[i].phase.leader].phase;
        Moved(s, i, Returned(s.calls[i].phase.lookupAt, done.evidence, done.storedAt))
      else s
  }

  function Run(m: Matcher, s: State, steps: seq<Step>): State {
    if steps == [] then s else Next(m, Run(m, s, steps[..|steps| - 1]), steps[|steps| - 1])
  }

  function Start(policy: Option<Config>): State { State(0, policy, None, [], []) }

  lemma RunThree(m: Matcher, s: State, a: Step, b: Step, c: Step)
    ensures Run(m, s, [a, b, c]) == Next(m, Next(m, Next(m, s, a), b), c)
  {
    assert [a, b, c][..2] == [a, b] && [a, b][..1] == [a];
    assert Run(m, s, [a]) == Next(m, s, a);
    assert Run(m, s, [a, b]) == Next(m, Next(m, s, a), b);
  }

  lemma RunFour(m: Matcher, s: State, a: Step, b: Step, c: Step, d: Step)
    ensures Run(m, s, [a, b, c, d]) == Next(m, Next(m, Next(m, Next(m, s, a), b), c), d)
  {
    RunThree(m, s, a, b, c);
    assert [a, b, c, d][..3] == [a, b, c];
  }

  lemma {:induction false} RunAppend(m: Matcher, s: State, xs: seq<Step>, ys: seq<Step>)
    ensures Run(m, s, xs + ys) == Run(m, Run(m, s, xs), ys)
  {
    var all := xs + ys;
    if ys == [] {
      assert all == xs;
    } else {
      assert all[|all| - 1] == ys[|ys| - 1] && all[..|all| - 1] == xs + ys[..|ys| - 1];
      RunAppend(m, s, xs, ys[..|ys| - 1]);
    }
  }

  // -------------------------------------------------------------------------- the invariant

  /** Evidence fit to answer a question about `ref` under `cfg`. */
  ghost predicate About(e: Evidence, cfg: Config, ref: string) { e.cfg == cfg && e.claim.ref == ref }

  /** A result stored at `storedAt` was younger than its time to live at `lookupAt`. */
  ghost predicate Young(m: Matcher, e: Evidence, storedAt: int, lookupAt: int) {
    lookupAt < storedAt + Ttl(m, e.cfg, e)
  }

  ghost predicate Leading(ph: Phase) { ph.Computing? || ph.Computed? }

  ghost predicate VerifierOk(m: Matcher, s: State, v: nat)
    requires v < |s.verifiers|
  {
    var vf := s.verifiers[v];
    && vf.cfg.cacheTtl > 0
    && (forall k :: k in vf.cache.entries ==>
          var e := vf.cache.entries[k];
          About(e.evidence, vf.cfg, k.ref) && e.storedAt <= s.now &&
            e.expires == e.storedAt + Ttl(m, vf.cfg, e.evidence))
    && (forall k :: k in vf.cache.inflight ==>
          var i := vf.cache.inflight[k];
          i < |s.calls| && Leading(s.calls[i].phase) && s.calls[i].phase.v == v && s.calls[i].phase.key == k)
  }

  /** Where the call a waiter waits for stands: it is still the leader of the waiter's key, or it
      has its result, stored no earlier than the waiter's lookup. */
  ghost predicate LeaderOk(s: State, w: Phase)
    requires w.Waiting?
  {
    w.v < |s.verifiers| && w.leader < |s.calls| &&
    match s.calls[w.leader].phase
    case Computing(v, key, at) => v == w.v && key == w.key
    case Computed(v, key, at, e) => v == w.v && key == w.key
    case Stored(v, key, at, e, storedAt) => v == w.v && key == w.key && w.lookupAt <= storedAt
    case Returned(_, e, storedAt) => About(e, s.verifiers[w.v].cfg, w.key.ref) && w.lookupAt <= storedAt
    case _ => false
  }

  ghost predicate PhaseOk(m: Matcher, s: State, i: nat)
    requires i < |s.calls|
  {
    var c := s.calls[i];
    var cfg := Normalize(c.policy);
    match c.phase
    case Loaded => true
    case NotVerified => true
    case Attached(v) => v < |s.verifiers| && s.verifiers[v].cfg == cfg
    case Keyed(v, key) => v < |s.verifiers| && s.verifiers[v].cfg == cfg && key.ref == c.claim.ref
    case Waiting(v, key, at, leader) =>
      v < |s.verifiers| && s.verifiers[v].cfg == cfg && key.ref == c.claim.ref && at <= s.now && LeaderOk(s, c.phase)
    case Computing(v, key, at) =>
      v < |s.verifiers| && s.verifiers[v].cfg == cfg && key.ref == c.claim.ref && at <= s.now
      && key in s.verifiers[v].cache.inflight && s.verifiers[v].cache.inflight[key] == i
    case Computed(v, key, at, e) =>
      v < |s.verifiers| && s.verifiers[v].cfg == cfg && key.ref == c.claim.ref && at <= s.now && About(e, cfg, key.ref)
      && key in s.verifiers[v].cache.inflight && s.verifiers[v].cache.inflight[key] == i
    case Stored(v, key, at, e, storedAt) =>
      v < |s.verifiers| && s.verifiers[v].cfg == cfg && key.ref == c.claim.ref && About(e, cfg, key.ref) &&
        at <= storedAt
    case Returned(at, e, storedAt) => About(e, cfg, c.claim.ref) && Young(m, e, storedAt, at)
  }

  ghost predicate Inv(m: Matcher, s: State) {
    && (s.held.Some? ==> s.held.value.1 < |s.verifiers| && s.verifiers[s.held.value.1].cfg == Normalize(s.held.value.0))
    && (forall v: nat :: v < |s.verifiers| ==> VerifierOk(m, s, v))
    && (forall i: nat :: i < |s.calls| ==> PhaseOk(m, s, i))
  }

  /** The cache of every verifier keeps what is known of it, given the calls that lead. */
  lemma VerifiersKept(m: Matcher, s: State, s': State)
    requires Inv(m, s) && s.now <= s'.now && |s.verifiers| <= |s'.verifiers| && |s.calls| <= |s'.calls|
    requires forall v: nat :: v < |s.verifiers| ==>
      s'.verifiers[v].cfg == s.verifiers[v].cfg && s'.verifiers[v].cache == s.verifiers[v].cache
    requires forall v: nat :: |s.verifiers| <= v < |s'.verifiers| ==>
      s'.verifiers[v].cache == Cache(map[], map[]) && s'.verifiers[v].cfg.cacheTtl > 0
    requires forall i: nat :: i < |s.calls| && Leading(s.calls[i].phase) ==>
      Leading(s'.calls[i].phase) && s'.calls[i].phase.v == s.calls[i].phase.v &&
        s'.calls[i].phase.key == s.calls[i].phase.key
    ensures forall v: nat :: v < |s'.verifiers| ==> VerifierOk(m, s', v)
  {
    forall v: nat | v < |s'.verifiers|
      ensures VerifierOk(m, s', v)
    {
      if v < |s.verifiers| { assert VerifierOk(m, s, v); }
    }
  }

  /** Whoever but `i` leads in `c` leads in `d`. */
  ghost predicate OtherLeadsKept(c: Cache, d: Cache, i: nat) {
    forall k :: k in c.inflight && c.inflight[k] != i ==> k in d.inflight && d.inflight[k] == c.inflight[k]
  }

  ghost predicate WaitsFor(ph: Phase, i: nat) { ph.Waiting? && ph.leader == i }

  /** Moving call `i` keeps every other call in order, if the caches keep the other leads and those
      who wait for `i` can still be served. */
  lemma OthersKept(m: Matcher, s: State, s': State, i: nat)
    requires Inv(m, s) && s'.now == s.now && |s.verifiers| <= |s'.verifiers| && i < |s.calls| == |s'.calls|
    requires forall v: nat :: v < |s.verifiers| ==> s'.verifiers[v].cfg == s.verifiers[v].cfg
    requires forall v: nat :: v < |s.verifiers| ==> OtherLeadsKept(s.verifiers[v].cache, s'.verifiers[v].cache, i)
    requires forall j: nat :: j < |s.calls| && j != i ==> s'.calls[j] == s.calls[j]
    requires forall j: nat :: j < |s.calls| && j != i && WaitsFor(s.calls[j].phase, i) ==>
      LeaderOk(s', s.calls[j].phase)
    ensures forall j: nat :: j < |s'.calls| && j != i ==> PhaseOk(m, s', j)
  {
    forall j: nat | j < |s'.calls| && j != i
      ensures PhaseOk(m, s', j)
    {
      assert PhaseOk(m, s, j);
    }
  }

  /** Nobody waits for a call that neither leads nor has a result. */
  lemma NobodyWaits(m: Matcher, s: State, i: nat)
    requires Inv(m, s) && i < |s.calls|
    requires !Leading(s.calls[i].phase) && !s.calls[i].phase.Stored? && !s.calls[i].phase.Returned?
    ensures forall j: nat :: j < |s.calls| && s.calls[j].phase.Waiting? ==> s.calls[j].phase.leader != i
  {
    forall j: nat | j < |s.calls| && s.calls[j].phase.Waiting?
      ensures s.calls[j].phase.leader != i
    {
      assert PhaseOk(m, s, j);
    }
  }

  lemma AttachKeeps(m: Matcher, s: State, i: nat)
    requires Inv(m, s)
    ensures Inv(m, Next(m, s, Attach(i)))
  {
    if i < |s.calls| && s.calls[i].phase.Loaded? {
      var s' := Attaching(s, i);
      NobodyWaits(m, s, i);
      VerifiersKept(m, s, s');
      OthersKept(m, s, s', i);
      assert PhaseOk(m, s', i);
    }
  }

  lemma ResolveKeeps(m: Matcher, s: State, i: nat, epoch: Option<string>)
    requires Inv(m, s)
    ensures Inv(m, Next(m, s, ResolveTrust(i, epoch)))
  {
    if i < |s.calls| && s.calls[i].phase.Attached? && s.calls[i].phase.v < |s.verifiers| {
      var s' := Resolving(s, i, s.calls[i].phase.v, epoch);
      NobodyWaits(m, s, i);
      assert PhaseOk(m, s, i);
      VerifiersKept(m, s, s');
      OthersKept(m, s, s', i);
      assert PhaseOk(m, s', i);
    }
  }

  lemma LookUpPhase(m: Matcher, s: State, i: nat, v: nat, key: Key)
    requires Inv(m, s) && i < |s.calls| && v < |s.verifiers| && s.calls[i].phase == Keyed(v, key)
    ensures PhaseOk(m, LookingUp(s, i, v, key), i)
  {
    assert PhaseOk(m, s, i) && VerifierOk(m, s, v);
    match Begin(s.verifiers[v].cache, key, s.now)
    case Wait(leader) => assert PhaseOk(m, s, leader);
    case _ =>
  }

  lemma LookUpVerifiers(m: Matcher, s: State, i: nat, v: nat, key: Key)
    requires Inv(m, s) && i < |s.calls| && v < |s.verifiers| && s.calls[i].phase == Keyed(v, key)
    ensures forall u: nat :: u < |s.verifiers| ==> VerifierOk(m, LookingUp(s, i, v, key), u)
  {
    var s' := LookingUp(s, i, v, key);
    forall u: nat | u < |s.verifiers|
      ensures VerifierOk(m, s', u)
    {
      assert VerifierOk(m, s, u);
    }
  }

  lemma LookUpKeeps(m: Matcher, s: State, i: nat)
    requires Inv(m, s)
    ensures Inv(m, Next(m, s, LookUp(i)))
  {
    if i < |s.calls| && s.calls[i].phase.Keyed? && s.calls[i].phase.v < |s.verifiers| {
      var v, key := s.calls[i].phase.v, s.calls[i].phase.key;
      var s' := LookingUp(s, i, v, key);
      NobodyWaits(m, s, i);
      assert PhaseOk(m, s, i);
      LookUpPhase(m, s, i, v, key);
      LookUpVerifiers(m, s, i, v, key);
      OthersKept(m, s, s', i);
    }
  }

  lemma ComputeKeeps(m: Matcher, s: State, i: nat, f: Findings)
    requires Inv(m, s)
    ensures Inv(m, Next(m, s, Compute(i, f)))
  {
    if Next(m, s, Compute(i, f)) != s {
      var s' := Next(m, s, Compute(i, f));
      assert PhaseOk(m, s, i);
      forall j: nat | j < |s.calls| && s.calls[j].phase.Waiting? && s.calls[j].phase.leader == i
        ensures LeaderOk(s', s.calls[j].phase)
      {
        assert PhaseOk(m, s, j);
      }
      VerifiersKept(m, s, s');
      OthersKept(m, s, s', i);
      assert PhaseOk(m, s', i);
    }
  }

  lemma StoreVerifiers(m: Matcher, s: State, i: nat)
    requires Inv(m, s) && i < |s.calls| && s.calls[i].phase.Computed? && s.calls[i].phase.v < |s.verifiers|
    ensures forall u: nat :: u < |s.verifiers| ==> VerifierOk(m, Next(m, s, Store(i)), u)
  {
    var s' := Next(m, s, Store(i));
    assert PhaseOk(m, s, i);
    forall u: nat | u < |s.verifiers|
      ensures VerifierOk(m, s', u)
    {
      assert VerifierOk(m, s, u);
    }
  }

  lemma StoreKeeps(m: Matcher, s: State, i: nat)
    requires Inv(m, s)
    ensures Inv(m, Next(m, s, Store(i)))
  {
    if i < |s.calls| && s.calls[i].phase.Computed? && s.calls[i].phase.v < |s.verifiers| {
      var s' := Next(m, s, Store(i));
      assert PhaseOk(m, s, i);
      forall j: nat | j < |s.calls| && s.calls[j].phase.Waiting? && s.calls[j].phase.leader == i
        ensures LeaderOk(s', s.calls[j].phase)
      {
        assert PhaseOk(m, s, j);
      }
      OthersKept(m, s, s', i);
      assert PhaseOk(m, s', i);
      StoreVerifiers(m, s, i);
    }
  }

  lemma PublishKeeps(m: Matcher, s: State, i: nat)
    requires Inv(m, s)
    ensures Inv(m, Next(m, s, Publish(i)))
  {
    if i < |s.calls| && s.calls[i].phase.Stored? {
      var s' := Next(m, s, Publish(i));
      assert PhaseOk(m, s, i) && VerifierOk(m, s, s.calls[i].phase.v);
      forall j: nat | j < |s.calls| && s.calls[j].phase.Waiting? && s.calls[j].phase.leader == i
        ensures LeaderOk(s', s.calls[j].phase)
      {
        assert PhaseOk(m, s, j);
      }
      VerifiersKept(m, s, s');
      OthersKept(m, s, s', i);
      assert PhaseOk(m, s', i);
    }
  }

  lemma WakeKeeps(m: Matcher, s: State, i: nat)
    requires Inv(m, s)
    ensures Inv(m, Next(m, s, Wake(i)))
  {
    if Next(m, s, Wake(i)) != s {
      var s' := Next(m, s, Wake(i));
      assert PhaseOk(m, s, i) && VerifierOk(m, s, s.calls[i].phase.v);
      NobodyWaits(m, s, i);
      VerifiersKept(m, s, s');
      OthersKept(m, s, s', i);
      assert PhaseOk(m, s', i);
    }
  }

  lemma OutsideKeeps(m: Matcher, s: State, step: Step)
    requires Inv(m, s) && (step.Tick? || step.SetPolicy? || step.Invoke?)
    ensures Inv(m, Next(m, s, step))
  {
    var s' := Next(m, s, step);
    VerifiersKept(m, s, s');
    forall j: nat | j < |s'.calls|
      ensures PhaseOk(m, s', j)
    {
      if j < |s.calls| {
        assert s'.calls[j] == s.calls[j];
        assert PhaseOk(m, s, j);
      }
    }
  }

  lemma {:induction false} RunKeeps(m: Matcher, policy: Option<Config>, steps: seq<Step>)
    ensures Inv(m, Run(m, Start(policy), steps))
  {
    if steps != [] {
      RunKeeps(m, policy, steps[..|steps| - 1]);
      var s := Run(m, Start(policy), steps[..|steps| - 1]);
      match steps[|steps| - 1]
      case Attach(i) => AttachKeeps(m, s, i);
      case ResolveTrust(i, epoch) => ResolveKeeps(m, s, i, epoch);
      case LookUp(i) => LookUpKeeps(m, s, i);
      case Compute(i, f) => ComputeKeeps(m, s, i, f);
      case Store(i) => StoreKeeps(m, s, i);
      case Publish(i) => PublishKeeps(m, s, i);
      case Wake(i) => WakeKeeps(m, s, i);
      case step => OutsideKeeps(m, s, step);
    }
  }

  // --------------------------------------------------------------------------- the theorems

  /** In every interleaving at most one computation per verifier and key is in flight. */
  lemma OneComputationPerKey(m: Matcher, policy: Option<Config>, steps: seq<Step>, i: nat, j: nat)
    requires
      var s := Run(m, Start(policy), steps);
      && i < |s.calls| && j < |s.calls| && Leading(s.calls[i].phase) && Leading(s.calls[j].phase)
      && s.calls[i].phase.v == s.calls[j].phase.v && s.calls[i].phase.key == s.calls[j].phase.key
    ensures i == j
  {
    RunKeeps(m, policy, steps);
    var s := Run(m, Start(policy), steps);
    assert PhaseOk(m, s, i) && PhaseOk(m, s, j);
  }

  /** Every result returned is the decision under exactly the policy the call loaded, for a claim
      with the same signature reference, and at the call's lookup it was younger than its time to
      live: one minute for errors. */
  lemma ReturnedIsDecided(m: Matcher, policy: Option<Config>, steps: seq<Step>, i: nat)
    requires
      var s := Run(m, Start(policy), steps);
      i < |s.calls| && s.calls[i].phase.Returned?
    ensures
      var c := Run(m, Start(policy), steps).calls[i];
      var e := c.phase.evidence;
      && e.cfg == Normalize(c.policy) && e.claim.ref == c.claim.ref
      && c.phase.lookupAt < c.phase.storedAt + (if Answer(m, e).verdict.Error? then 60
        else Normalize(c.policy).cacheTtl)
  {
    RunKeeps(m, policy, steps);
    assert PhaseOk(m, Run(m, Start(policy), steps), i);
  }

  ghost predicate InHand(ph: Phase, e: Evidence) {
    (ph.Computed? || ph.Stored? || ph.Returned?) && ph.evidence == e
  }

  /** The mode a policy asks for; none means the public trust root. */
  function ModeOf(policy: Config): TrustMode { if policy.mode == Unset then Public else policy.mode }

  /** In terms of the loaded policy alone: its own identities, trust root and mode decided the result,
      and the result was younger than the policy's time to live: a day when it sets none, a minute
      for errors. */
  lemma ReturnedUnderPolicy(m: Matcher, policy: Option<Config>, steps: seq<Step>, i: nat)
    requires
      var s := Run(m, Start(policy), steps);
      i < |s.calls| && s.calls[i].phase.Returned?
    ensures
      var c := Run(m, Start(policy), steps).calls[i];
      var e := c.phase.evidence;
      var ttl := if c.policy.cacheTtl > 0 then c.policy.cacheTtl else 86400;
      && e.cfg.identities == c.policy.identities && e.cfg.source == c.policy.source && e.cfg.mode == ModeOf(c.policy)
      && e.claim.ref == c.claim.ref
      && c.phase.lookupAt < c.phase.storedAt + (if e.findings.errClass != "" then 60 else ttl)
  {
    ReturnedIsDecided(m, policy, steps, i);
    var c := Run(m, Start(policy), steps).calls[i];
    VerdictExactly(m, c.phase.evidence.cfg, c.phase.evidence.claim, c.phase.evidence.findings, c.phase.evidence.at);
  }

  /** Over every run, a Verified answer has a valid, logged chain whose signer the call's own policy
      binds: by one of its constraints if it lists any, otherwise by a trust root of its own. */
  lemma VerifiedUnderPolicy(m: Matcher, policy: Option<Config>, steps: seq<Step>, i: nat)
    requires
      var s := Run(m, Start(policy), steps);
      i < |s.calls| && s.calls[i].phase.Returned? && Answer(m, s.calls[i].phase.evidence).verdict.Verified?
    ensures
      var c := Run(m, Start(policy), steps).calls[i];
      var f := c.phase.evidence.findings;
      && f.chainValid && f.rekorProven
      && (c.policy.identities != [] ==> Admits(m, c.policy, f))
      && (c.policy.identities == [] ==> c.policy.mode == TufMirror || c.policy.mode == StaticBundle)
  {
    ReturnedUnderPolicy(m, policy, steps, i);
    var c := Run(m, Start(policy), steps).calls[i];
    var e := c.phase.evidence;
    VerdictExactly(m, e.cfg, e.claim, e.findings, e.at);
    assert Admits(m, e.cfg, e.findings) <==> Admits(m, c.policy, e.findings);
  }

  /** A self-hosted trust root without a source cannot be built: such a call is never answered from a
      cache. */
  lemma UnsourcedNotVerified(m: Matcher, s: State, i: nat)
    requires i < |s.calls| && s.calls[i].phase.Loaded? && s.calls[i].policy.source == ""
    requires s.calls[i].policy.mode == TufMirror || s.calls[i].policy.mode == StaticBundle
    requires s.held.None? || s.held.value.0 != s.calls[i].policy
    ensures Next(m, s, Attach(i)).calls[i].phase.NotVerified? && Next(m, s, Attach(i)).verifiers == s.verifiers
  {
  }

  /** A lookup is answered at once exactly by an entry that has not expired; otherwise it waits for
      whoever computes the key, or computes it itself. */
  lemma LookUpExactly(m: Matcher, s: State, i: nat)
    requires i < |s.calls| && s.calls[i].phase.Keyed? && s.calls[i].phase.v < |s.verifiers|
    ensures
      var key, cache := s.calls[i].phase.key, s.verifiers[s.calls[i].phase.v].cache;
      var unexpired := key in cache.entries && s.now < cache.entries[key].expires;
      var ph := Next(m, s, LookUp(i)).calls[i].phase;
      && (ph.Returned? <==> unexpired) && (ph.Returned? ==> ph.evidence == cache.entries[key].evidence)
      && (ph.Waiting? <==> !unexpired && key in cache.inflight) && (ph.Waiting? ==> ph.leader == cache.inflight[key])
      && (ph.Computing? <==> !unexpired && key !in cache.inflight)
  {
  }

  /** A call is keyed by its reference and the trust epoch once that is known, and apart from those
      until then; a verifier resolves its epoch once. */
  lemma ResolveExactly(m: Matcher, s: State, i: nat, epoch: Option<string>)
    requires i < |s.calls| && s.calls[i].phase.Attached? && s.calls[i].phase.v < |s.verifiers|
    ensures
      var s', v, ref := Next(m, s, ResolveTrust(i, epoch)), s.calls[i].phase.v, s.calls[i].claim.ref;
      && s'.verifiers[v].epoch == (if s.verifiers[v].epoch.Some? then s.verifiers[v].epoch else epoch)
      && s'.calls[i].phase ==
        Keyed(v, match s'.verifiers[v].epoch case None => TrustUnresolved(ref) case Some(e) => UnderEpoch(ref, e))
  {
  }

  lemma EpochStep(m: Matcher, s: State, step: Step, v: nat)
    requires v < |s.verifiers|
    ensures
      var s' := Next(m, s, step);
      && v < |s'.verifiers| && s'.verifiers[v].cfg == s.verifiers[v].cfg
      && (s.verifiers[v].epoch.Some? ==> s'.verifiers[v].epoch == s.verifiers[v].epoch)
  {
  }

  /** Once resolved, a verifier's epoch never changes; nor does its configuration. */
  lemma {:induction false} EpochStays(m: Matcher, policy: Option<Config>, steps: seq<Step>, more: seq<Step>, v: nat)
    requires v < |Run(m, Start(policy), steps).verifiers|
    ensures
      var before, now := Run(m, Start(policy), steps), Run(m, Start(policy), steps + more);
      && v < |now.verifiers| && now.verifiers[v].cfg == before.verifiers[v].cfg
      && (before.verifiers[v].epoch.Some? ==> now.verifiers[v].epoch == before.verifiers[v].epoch)
  {
    var all := steps + more;
    if more == [] {
      assert all == steps;
    } else {
      var init := more[..|more| - 1];
      assert all[..|all| - 1] == steps + init;
      EpochStays(m, policy, steps, init, v);
      EpochStep(m, Run(m, Start(policy), steps + init), more[|more| - 1], v);
    }
  }

  /** The state holds this evidence: in a cache or in a call's hands. */
  ghost predicate Holds(s: State, e: Evidence) {
    || (exists v: nat, k :: v < |s.verifiers| && k in s.verifiers[v].cache.entries &&
         s.verifiers[v].cache.entries[k].evidence == e)
    || (exists i: nat :: i < |s.calls| && InHand(s.calls[i].phase, e))
  }

  /** The step is a computation, and this is what it decides from. */
  ghost predicate Computes(s: State, step: Step, e: Evidence) {
    && step.Compute? && step.i < |s.calls| && s.calls[step.i].phase.Computing? && Producible(step.findings)
    && e == Evidence(Normalize(s.calls[step.i].policy), s.calls[step.i].claim, step.findings, s.now)
  }

  lemma HandSource(m: Matcher, s: State, step: Step, i: nat, e: Evidence)
    requires Inv(m, s)
    requires
      var s' := Next(m, s, step);
      i < |s'.calls| && InHand(s'.calls[i].phase, e)
    ensures Holds(s, e) || Computes(s, step, e)
  {
    if i < |s.calls| && Next(m, s, step).calls[i] != s.calls[i] {
      assert PhaseOk(m, s, i);
      match step
      case LookUp(_) => assert s.verifiers[s.calls[i].phase.v].cache.entries[s.calls[i].phase.key].evidence == e;
      case Wake(_) => assert InHand(s.calls[s.calls[i].phase.leader].phase, e);
      case _ =>
    }
  }

  lemma CacheSource(m: Matcher, s: State, step: Step, v: nat, k: Key)
    requires
      var s' := Next(m, s, step);
      v < |s'.verifiers| && k in s'.verifiers[v].cache.entries
    ensures Holds(s, Next(m, s, step).verifiers[v].cache.entries[k].evidence)
  {
    var e := Next(m, s, step).verifiers[v].cache.entries[k].evidence;
    if v < |s.verifiers| && k in s.verifiers[v].cache.entries && s.verifiers[v].cache.entries[k].evidence == e {
    } else {
      assert step.Store? && InHand(s.calls[step.i].phase, e);
    }
  }

  /** Only a computation brings new evidence into the system. */
  lemma EvidenceSource(m: Matcher, s: State, step: Step, e: Evidence)
    requires Inv(m, s) && Holds(Next(m, s, step), e)
    ensures Holds(s, e) || Computes(s, step, e)
  {
    var s' := Next(m, s, step);
    if i: nat :| i < |s'.calls| && InHand(s'.calls[i].phase, e) {
      HandSource(m, s, step, i, e);
    } else {
      var v: nat, k :| v < |s'.verifiers| && k in s'.verifiers[v].cache.entries &&
        s'.verifiers[v].cache.entries[k].evidence == e;
      CacheSource(m, s, step, v, k);
    }
  }

  lemma {:induction false} HeldWasComputed(m: Matcher, policy: Option<Config>, steps: seq<Step>, e: Evidence)
      returns (n: nat)
    requires Holds(Run(m, Start(policy), steps), e)
    ensures n < |steps| && Computes(Run(m, Start(policy), steps[..n]), steps[n], e)
  {
    var last := |steps| - 1;
    RunKeeps(m, policy, steps[..last]);
    EvidenceSource(m, Run(m, Start(policy), steps[..last]), steps[last], e);
    if Computes(Run(m, Start(policy), steps[..last]), steps[last], e) {
      n := last;
    } else {
      n := HeldWasComputed(m, policy, steps[..last], e);
      assert steps[..last][..n] == steps[..n];
    }
  }

  /** Every result returned was computed earlier in the run by a call that was leading, from
      that call's own claim and policy and the findings of that moment. */
  lemma ReturnedWasComputed(m: Matcher, policy: Option<Config>, steps: seq<Step>, i: nat) returns (n: nat)
    requires
      var s := Run(m, Start(policy), steps);
      i < |s.calls| && s.calls[i].phase.Returned?
    ensures n < |steps|
    ensures Computes(Run(m, Start(policy), steps[..n]), steps[n], Run(m, Start(policy), steps).calls[i].phase.evidence)
  {
    var s := Run(m, Start(policy), steps);
    assert InHand(s.calls[i].phase, s.calls[i].phase.evidence);
    n := HeldWasComputed(m, policy, steps, s.calls[i].phase.evidence);
  }

  lemma LeaderFinishes(m: Matcher, s: State, l: nat, f: Findings, i: nat)
    requires l < |s.calls| && i < |s.calls| && l != i && Producible(f) && f.errClass != ""
    requires Leading(s.calls[l].phase) || s.calls[l].phase.Stored? || s.calls[l].phase.Returned?
    requires Leading(s.calls[l].phase) ==> s.calls[l].phase.v < |s.verifiers|
    ensures
      var s' := Next(m, Next(m, Next(m, s, Compute(l, f)), Store(l)), Publish(l));
      |s'.calls| == |s.calls| && s'.calls[l].phase.Returned? && s'.calls[i] == s.calls[i]
  {
    var s1 := Next(m, s, Compute(l, f));
    assert s1.calls[i] == s.calls[i] && !s1.calls[l].phase.Computing? && s1.verifiers == s.verifiers;
    var s2 := Next(m, s1, Store(l));
    assert s2.calls[i] == s.calls[i] && (s2.calls[l].phase.Stored? || s2.calls[l].phase.Returned?);
  }

  /** No waiter is stranded: in every reachable state its leader can still finish, and when it
      does the waiter returns. */
  lemma WaiterCanFinish(m: Matcher, policy: Option<Config>, steps: seq<Step>, i: nat, f: Findings)
    requires Producible(f) && f.errClass != ""
    requires
      var s := Run(m, Start(policy), steps);
      i < |s.calls| && s.calls[i].phase.Waiting?
    ensures
      var l := Run(m, Start(policy), steps).calls[i].phase.leader;
      var s' := Run(m, Start(policy), steps + [Compute(l, f), Store(l), Publish(l), Wake(i)]);
      i < |s'.calls| && s'.calls[i].phase.Returned?
  {
    var s := Run(m, Start(policy), steps);
    var l := s.calls[i].phase.leader;
    RunKeeps(m, policy, steps);
    RunAppend(m, Start(policy), steps, [Compute(l, f), Store(l), Publish(l), Wake(i)]);
    RunFour(m, s, Compute(l, f), Store(l), Publish(l), Wake(i));
    assert PhaseOk(m, s, i) && PhaseOk(m, s, l) && l != i;
    LeaderFinishes(m, s, l, f, i);
  }

  /** A waiter that wakes returns its leader's result, and that result was stored after the waiter
      looked. */
  lemma WaiterGetsLeaders(m: Matcher, policy: Option<Config>, steps: seq<Step>, i: nat)
    requires
      var s := Run(m, Start(policy), steps);
      i < |s.calls| && s.calls[i].phase.Waiting? && Next(m, s, Wake(i)) != s
    ensures
      var s := Run(m, Start(policy), steps);
      var w := s.calls[i].phase;
      var done := Next(m, s, Wake(i)).calls[i].phase;
      && w.leader < |s.calls| && s.calls[w.leader].phase.Returned?
      && done.Returned? && done.evidence == s.calls[w.leader].phase.evidence
      && w.lookupAt <= done.storedAt
  {
    RunKeeps(m, policy, steps);
    assert PhaseOk(m, Run(m, Start(policy), steps), i);
  }

  /** The answer equals the uncached one, for the findings it was computed from, whenever the two
      claims agree on identity and digest. */
  lemma AgreeingClaimsUncached(m: Matcher, policy: Option<Config>, steps: seq<Step>, i: nat)
    requires
      var s := Run(m, Start(policy), steps);
      i < |s.calls| && s.calls[i].phase.Returned?
      && s.calls[i].phase.evidence.claim.identity == s.calls[i].claim.identity
      && s.calls[i].phase.evidence.claim.digest == s.calls[i].claim.digest
    ensures
      var c := Run(m, Start(policy), steps).calls[i];
      var e := c.phase.evidence;
      Answer(m, e) == Decide(m, Normalize(c.policy), c.claim, e.findings, e.at)
  {
    ReturnedIsDecided(m, policy, steps, i);
  }

  // ------------------------------------------------------------------------ two calls in a row

  function FirstCallSteps(c: Claim, f: Findings): seq<Step> {
    [Invoke(c), Attach(0), ResolveTrust(0, Some("epoch")), LookUp(0)] + [Compute(0, f), Store(0), Publish(0)]
  }

  function SecondCallSteps(c: Claim): seq<Step> { [Invoke(c), Attach(1), ResolveTrust(1, None), LookUp(1)] }

  lemma Opening(m: Matcher, s: State, cfg: Config, c: Claim)
    requires s == Start(Some(cfg)) && Constructible(cfg) && c.ref != ""
    ensures
      var key := UnderEpoch(c.ref, "epoch");
      Next(m, Next(m, Next(m, Next(m, s, Invoke(c)), Attach(0)), ResolveTrust(0, Some("epoch"))), LookUp(0))
      == State(0, Some(cfg), Some((cfg, 0)), [Verifier(Normalize(cfg), Some("epoch"), Cache(map[], map[key := 0]))],
               [Call(c, cfg, Computing(0, key, 0))])
  {
    var s1 := Next(m, s, Invoke(c));
    assert s1.calls == [Call(c, cfg, Loaded)];
    var s2 := Next(m, s1, Attach(0));
    assert s2.calls == [Call(c, cfg, Attached(0))] &&
      s2.verifiers == [Verifier(Normalize(cfg), None, Cache(map[], map[]))];
    var s3 := Next(m, s2, ResolveTrust(0, Some("epoch")));
    assert s3.calls == [Call(c, cfg, Keyed(0, UnderEpoch(c.ref, "epoch")))];
    assert s3.verifiers == [Verifier(Normalize(cfg), Some("epoch"), Cache(map[], map[]))];
    var s4 := Next(m, s3, LookUp(0));
    assert s4.verifiers ==
      [Verifier(Normalize(cfg), Some("epoch"), Cache(map[], map[UnderEpoch(c.ref, "epoch") := 0]))];
  }

  lemma Closing(m: Matcher, s: State, cfg: Config, c: Claim, f: Findings)
    requires Producible(f)
    requires
      var key := UnderEpoch(c.ref, "epoch");
      s == State(0, Some(cfg), Some((cfg, 0)), [Verifier(Normalize(cfg), Some("epoch"), Cache(map[], map[key := 0]))],
                 [Call(c, cfg, Computing(0, key, 0))])
    ensures
      var s' := Next(m, Next(m, Next(m, s, Compute(0, f)), Store(0)), Publish(0));
      var e := Evidence(Normalize(cfg), c, f, 0);
      var key := UnderEpoch(c.ref, "epoch");
      && s'.now == 0 && s'.policy == Some(cfg) && s'.held == Some((cfg, 0)) && |s'.calls| == 1
      && |s'.verifiers| == 1 && s'.verifiers[0].epoch == Some("epoch")
      && key in s'.verifiers[0].cache.entries
      && s'.verifiers[0].cache.entries[key].evidence == e && 0 < s'.verifiers[0].cache.entries[key].expires
  {
    var s1 := Next(m, s, Compute(0, f));
    assert s1.calls[0].phase == Computed(0, UnderEpoch(c.ref, "epoch"), 0, Evidence(Normalize(cfg), c, f, 0));
    var s2 := Next(m, s1, Store(0));
    assert s2.calls[0].phase.Stored?;
  }

  lemma FirstCall(m: Matcher, s: State, cfg: Config, c: Claim, f: Findings)
    requires s == Start(Some(cfg)) && Constructible(cfg) && c.ref != "" && Producible(f)
    ensures
      var s' := Run(m, s, FirstCallSteps(c, f));
      var e := Evidence(Normalize(cfg), c, f, 0);
      var key := UnderEpoch(c.ref, "epoch");
      && s'.now == 0 && s'.policy == Some(cfg) && s'.held == Some((cfg, 0)) && |s'.calls| == 1
      && |s'.verifiers| == 1 && s'.verifiers[0].epoch == Some("epoch")
      && key in s'.verifiers[0].cache.entries
      && s'.verifiers[0].cache.entries[key].evidence == e && 0 < s'.verifiers[0].cache.entries[key].expires
  {
    var opening := [Invoke(c), Attach(0), ResolveTrust(0, Some("epoch")), LookUp(0)];
    RunAppend(m, s, opening, [Compute(0, f), Store(0), Publish(0)]);
    RunFour(m, s, Invoke(c), Attach(0), ResolveTrust(0, Some("epoch")), LookUp(0));
    RunThree(m, Run(m, s, opening), Compute(0, f), Store(0), Publish(0));
    Opening(m, s, cfg, c);
    Closing(m, Run(m, s, opening), cfg, c, f);
  }

  lemma SecondCall(m: Matcher, s: State, cfg: Config, c: Claim, e: Evidence)
    requires s.now == 0 && s.policy == Some(cfg) && s.held == Some((cfg, 0)) && |s.calls| == 1 && c.ref != ""
    requires |s.verifiers| == 1 && s.verifiers[0].epoch == Some("epoch")
    requires UnderEpoch(c.ref, "epoch") in s.verifiers[0].cache.entries
    requires s.verifiers[0].cache.entries[UnderEpoch(c.ref, "epoch")].evidence == e
    requires 0 < s.verifiers[0].cache.entries[UnderEpoch(c.ref, "epoch")].expires
    ensures
      var s' := Run(m, s, SecondCallSteps(c));
      |s'.calls| == 2 && s'.calls[1].claim == c && s'.calls[1].policy == cfg
      && s'.calls[1].phase.Returned? && s'.calls[1].phase.evidence == e
  {
    RunFour(m, s, Invoke(c), Attach(1), ResolveTrust(1, None), LookUp(1));
    var s1 := Next(m, s, Invoke(c));
    assert s1 == s.(calls := s.calls + [Call(c, cfg, Loaded)]);
    var s2 := Next(m, s1, Attach(1));
    assert s2 == s.(calls := s.calls + [Call(c, cfg, Attached(0))]);
    var s3 := Next(m, s2, ResolveTrust(1, None));
    assert s3 == s.(calls := s.calls + [Call(c, cfg, Keyed(0, UnderEpoch(c.ref, "epoch")))]);
  }

  // --------------------------------------------------- whose answer a caller gets, exactly

  /** The call was answered as its own claim would be, on the findings the answer is based on. */
  ghost predicate OwnAnswer(m: Matcher, c: Call) {
    c.phase.Returned? ==>
      var e := c.phase.evidence;
      Answer(m, e) == Decide(m, Normalize(c.policy), c.claim, e.findings, e.at)
  }

  ghost predicate OwnAnswers(m: Matcher, s: State) {
    forall i :: 0 <= i < |s.calls| ==> OwnAnswer(m, s.calls[i])
  }

  ghost predicate InvokesOnly(steps: seq<Step>, cs: set<Claim>) {
    forall n :: 0 <= n < |steps| && steps[n].Invoke? ==> steps[n].claim in cs
  }

  ghost predicate KeepsPolicy(steps: seq<Step>) {
    forall n :: 0 <= n < |steps| ==> !steps[n].SetPolicy?
  }

  /** Claims that name the same signature declare the same identity and the same digest. */
  ghost predicate Agreeing(cs: set<Claim>) {
    forall a, b :: a in cs && b in cs && a.ref == b.ref && a.ref != "" ==>
      a.identity == b.identity && a.digest == b.digest
  }

  /** A step changes no call's claim or policy; only an invocation adds a call. */
  lemma CallsGrow(m: Matcher, s: State, step: Step)
    ensures
      var s' := Next(m, s, step);
      && |s.calls| <= |s'.calls|
      && (forall i :: 0 <= i < |s.calls| ==>
           s'.calls[i].claim == s.calls[i].claim && s'.calls[i].policy == s.calls[i].policy)
      && (forall i :: |s.calls| <= i < |s'.calls| ==>
            step == Invoke(s'.calls[i].claim) && s'.calls[i].claim.ref != "" && s.policy == Some(s'.calls[i].policy))
      && (!step.SetPolicy? ==> s'.policy == s.policy)
  {
  }

  lemma {:induction false} CallsInvoked(m: Matcher, policy: Option<Config>, steps: seq<Step>, cs: set<Claim>)
    requires InvokesOnly(steps, cs)
    ensures forall c :: c in Run(m, Start(policy), steps).calls ==> c.claim in cs && c.claim.ref != ""
  {
    if steps != [] {
      CallsInvoked(m, policy, steps[..|steps| - 1], cs);
      CallsGrow(m, Run(m, Start(policy), steps[..|steps| - 1]), steps[|steps| - 1]);
    }
  }

  lemma AgreeingAnswers(m: Matcher, policy: Option<Config>, steps: seq<Step>, cs: set<Claim>)
    requires InvokesOnly(steps, cs) && Agreeing(cs)
    ensures OwnAnswers(m, Run(m, Start(policy), steps))
  {
    var s := Run(m, Start(policy), steps);
    CallsInvoked(m, policy, steps, cs);
    forall i: nat | i < |s.calls| && s.calls[i].phase.Returned?
      ensures OwnAnswer(m, s.calls[i])
    {
      var n := ReturnedWasComputed(m, policy, steps, i);
      CallsInvoked(m, policy, steps[..n], cs);
      ReturnedIsDecided(m, policy, steps, i);
      assert s.calls[i] in s.calls;
      AgreeingClaimsUncached(m, policy, steps, i);
    }
  }

  /** The two calls of `a` and then of `b`, on one signature, give `b` the answer of `a`. */
  lemma SharedAnswer(m: Matcher, cfg: Config, a: Claim, b: Claim, f: Findings)
    requires Constructible(cfg) && a.ref == b.ref != "" && Producible(f)
    ensures
      var s := Run(m, Start(Some(cfg)), FirstCallSteps(a, f) + SecondCallSteps(b));
      && |s.calls| == 2 && s.calls[1].claim == b && s.calls[1].policy == cfg && s.calls[1].phase.Returned?
      && s.calls[1].phase.evidence == Evidence(Normalize(cfg), a, f, 0)
  {
    RunAppend(m, Start(Some(cfg)), FirstCallSteps(a, f), SecondCallSteps(b));
    FirstCall(m, Start(Some(cfg)), cfg, a, f);
    SecondCall(m, Run(m, Start(Some(cfg)), FirstCallSteps(a, f)), cfg, b, Evidence(Normalize(cfg), a, f, 0));
  }

  lemma DisagreeingRun(m: Matcher, cfg: Config, cs: set<Claim>, a: Claim, b: Claim, issuer: string, san: string)
      returns (steps: seq<Step>)
    requires Constructible(cfg) && Binding(m, Normalize(cfg), issuer, san)
    requires a in cs && b in cs && a.ref == b.ref != "" && (a.identity != b.identity || a.digest != b.digest)
    ensures InvokesOnly(steps, cs) && KeepsPolicy(steps) && !OwnAnswers(m, Run(m, Start(Some(cfg)), steps))
  {
    ClaimsDistinguished(m, Normalize(cfg), a, b, issuer, san, 0);
    var f :| Producible(f) && Decide(m, Normalize(cfg), a, f, 0) != Decide(m, Normalize(cfg), b, f, 0);
    steps := FirstCallSteps(a, f) + SecondCallSteps(b);
    SharedAnswer(m, cfg, a, b, f);
    var s := Run(m, Start(Some(cfg)), steps);
    assert !OwnAnswer(m, s.calls[1]);
  }

  /** Over every interleaving, with policy reloads: every caller is given the answer of its own claim
      if and only if the claims that name the same signature agree on identity and digest.  Nothing
      is asked of the first policy. */
  lemma OwnAnswersExactly(m: Matcher, policy: Option<Config>, cs: set<Claim>)
    ensures (forall steps :: InvokesOnly(steps, cs) ==> OwnAnswers(m, Run(m, Start(policy), steps))) <==> Agreeing(cs)
  {
    if Agreeing(cs) {
      forall steps | InvokesOnly(steps, cs)
        ensures OwnAnswers(m, Run(m, Start(policy), steps))
      {
        AgreeingAnswers(m, policy, steps, cs);
      }
    } else {
      var a, b :| a in cs && b in cs && a.ref == b.ref && a.ref != "" &&
        !(a.identity == b.identity && a.digest == b.digest);
      var cfg := Config(StaticBundle, "bundle", [], 0);
      var steps := DisagreeingRun(m, cfg, cs, a, b, "", "");
      var reload := [SetPolicy(Some(cfg))];
      assert reload[..0] == [];
      assert Run(m, Start(policy), []) == Start(policy);
      assert Run(m, Start(policy), reload) == Start(Some(cfg));
      RunAppend(m, Start(policy), reload, steps);
      assert InvokesOnly(reload + steps, cs);
    }
  }

  // ------------------------------------------------------------------- under one fixed policy

  /** Some signer satisfies the policy. */
  ghost predicate Bindable(m: Matcher, cfg: Config) { exists issuer, san :: Binding(m, cfg, issuer, san) }

  /** A policy no signer satisfies never looks at what was signed. */
  lemma UnbindableIgnoresClaims(m: Matcher, cfg: Config, a: Claim, b: Claim, f: Findings, now: int)
    requires !Bindable(m, cfg)
    ensures Decide(m, cfg, a, f, now) == Decide(m, cfg, b, f, now)
  {
    assert !Binding(m, cfg, f.issuer, f.identity);
  }

  lemma NoVerifier(m: Matcher, s: State, cfg: Config, step: Step)
    requires !Constructible(cfg) && s.held.None? && s.verifiers == [] && forall c :: c in s.calls ==> c.policy == cfg
    ensures Next(m, s, step).held.None? && Next(m, s, step).verifiers == []
  {
  }

  lemma {:induction false} PolicyStays(m: Matcher, cfg: Config, steps: seq<Step>)
    requires KeepsPolicy(steps)
    ensures
      var s := Run(m, Start(Some(cfg)), steps);
      && s.policy == Some(cfg) && (forall c :: c in s.calls ==> c.policy == cfg)
      && (!Constructible(cfg) ==> s.held.None? && s.verifiers == [])
  {
    if steps != [] {
      var s := Run(m, Start(Some(cfg)), steps[..|steps| - 1]);
      PolicyStays(m, cfg, steps[..|steps| - 1]);
      CallsGrow(m, s, steps[|steps| - 1]);
      if !Constructible(cfg) { NoVerifier(m, s, cfg, steps[|steps| - 1]); }
    }
  }

  lemma FixedPolicyAnswers(m: Matcher, cfg: Config, steps: seq<Step>)
    requires KeepsPolicy(steps) && (!Constructible(cfg) || !Bindable(m, Normalize(cfg)))
    ensures OwnAnswers(m, Run(m, Start(Some(cfg)), steps))
  {
    var s := Run(m, Start(Some(cfg)), steps);
    PolicyStays(m, cfg, steps);
    forall i: nat | i < |s.calls| && s.calls[i].phase.Returned?
      ensures OwnAnswer(m, s.calls[i])
    {
      var n := ReturnedWasComputed(m, Some(cfg), steps, i);
      PolicyStays(m, cfg, steps[..n]);
      RunKeeps(m, Some(cfg), steps[..n]);
      var t := Run(m, Start(Some(cfg)), steps[..n]);
      assert PhaseOk(m, t, steps[n].i);
      assert s.calls[i].policy == cfg && Constructible(cfg);
      ReturnedIsDecided(m, Some(cfg), steps, i);
      var e := s.calls[i].phase.evidence;
      UnbindableIgnoresClaims(m, Normalize(cfg), e.claim, s.calls[i].claim, e.findings, e.at);
    }
  }

  /** The same under one policy that is never reloaded: callers get their own answers if and only if
      no verifier can be built for it, no signer satisfies it, or the claims agree. */
  lemma OwnAnswersUnderPolicy(m: Matcher, cfg: Config, cs: set<Claim>)
    ensures (forall steps :: InvokesOnly(steps, cs) && KeepsPolicy(steps) ==>
      OwnAnswers(m, Run(m, Start(Some(cfg)), steps)))
            <==> !Constructible(cfg) || !Bindable(m, Normalize(cfg)) || Agreeing(cs)
  {
    if !Constructible(cfg) || !Bindable(m, Normalize(cfg)) || Agreeing(cs) {
      forall steps | InvokesOnly(steps, cs) && KeepsPolicy(steps)
        ensures OwnAnswers(m, Run(m, Start(Some(cfg)), steps))
      {
        if Agreeing(cs) {
          AgreeingAnswers(m, Some(cfg), steps, cs);
        } else {
          FixedPolicyAnswers(m, cfg, steps);
        }
      }
    } else {
      var issuer, san :| Binding(m, Normalize(cfg), issuer, san);
      var a, b :| a in cs && b in cs && a.ref == b.ref && a.ref != "" &&
        !(a.identity == b.identity && a.digest == b.digest);
      var steps := DisagreeingRun(m, cfg, cs, a, b, issuer, san);
    }
  }

  /** The key leaves out identity and digest: a claim whose digest contradicts the signature is
      answered Verified from the entry of a claim that matches it. */
  lemma CachedAnswerIgnoresDigest(m: Matcher)
    ensures
      var cfg := Config(StaticBundle, "bundle", [], 0);
      var f := Findings(true, "", "", "san", "issuer", true, "model", "sha256:aa");
      var good, bad := Claim("model", "ref", "aa"), Claim("model", "ref", "bb");
      var s := Run(m, Start(Some(cfg)), FirstCallSteps(good, f) + SecondCallSteps(bad));
      && |s.calls| == 2 && s.calls[1].claim == bad && s.calls[1].phase.Returned?
      && Answer(m, s.calls[1].phase.evidence).verdict.Verified?
      && Decide(m, Normalize(cfg), bad, f, 0).verdict.DigestMismatch?
  {
    var cfg := Config(StaticBundle, "bundle", [], 0);
    var f := Findings(true, "", "", "san", "issuer", true, "model", "sha256:aa");
    var good, bad := Claim("model", "ref", "aa"), Claim("model", "ref", "bb");
    SharedAnswer(m, cfg, good, bad, f);
    assert "sha256:" + "aa" == "sha256:aa";
    assert ("sha256:" + "bb")[7] != "sha256:aa"[7];
  }
}
