/**
 CRD discovery and the whole lifecycle protocol (internal/controller/watch_discovery.go together
 with the apply loop): a CRD that changes under its reader, one worker that reads it and
 publishes into a slot that is overwritten, an allowlist that changes, runner reports, and apply.

 Every interleaving is a sequence of steps.  `confirmed` is a history variable: the generations
 some full read has shown to be gone.
 */
module CrdDiscovery {
  import opened Common
  import opened WatchHealth
  import opened CrdLifecycle

  /** The CustomResourceDefinition as the API server holds it. */
  datatype Crd = Absent | Installed(uid: UID, deleting: bool, ready: bool, reason: string)

  /** Result of one full read. */
  datatype Read = NotFound | ReadFailed | Found(uid: UID, deleting: bool, ready: bool, reason: string)

  /** A read that shows generation `g` is gone: absent, replaced, or being deleted. */
  predicate ShowsGone(r: Read, g: UID) {
    r.NotFound? || (r.Found? && (r.uid != g || r.deleting))
  }

  predicate Live(crd: Crd, g: UID) {
    crd.Installed? && crd.uid == g && !crd.deleting
  }

  // ---------------------------------------------------------------------------- the worker

  datatype Worker = Worker(
    state: CrdState,
    uid: UID,
    sawAbsent: bool,
    firstUid: UID,
    lagReported: bool,
    lagSeq: nat)
  {
    predicate Tracking() { state.Ready? || state.Unservable? }

    /** Evidence, from successful reads only, that `u` was installed after startup. */
    predicate IsLate(u: UID) { sawAbsent || (firstUid != "" && firstUid != u) }
  }

  const NEW_WORKER := Worker(Unknown, "", false, "", false, 0)

  /** First half of a read's classification: presence.  Ends the tracked generation when the
      read shows it gone. */
  function Absorb(w: Worker, r: Read): Worker {
    var w1 :=
      match r
      case NotFound => w.(sawAbsent := true)
      case ReadFailed => w
      case Found(u, _, _, _) => if w.firstUid == "" then w.(firstUid := u) else w;
    if w.Tracking() && ShowsGone(r, w.uid) then
      w1.(state := Removed, sawAbsent := true, lagReported := false)
    else w1
  }

  function AbsorbPublishes(w: Worker, r: Read, slot: Observation): Observation {
    if w.Tracking() && ShowsGone(r, w.uid) then Observation(Removed, w.uid, "", false, None, w.lagSeq)
    else slot
  }

  /** What the RESTMapper answers, and how long it has been failing. */
  datatype Mapping = Resolved | Lagging(overdue: bool, err: string)

  /** Second half: readiness of a CRD that is present and not being deleted. */
  function Classify(w: Worker, r: Read, m: Mapping): Worker {
    if !r.Found? || r.deleting then w
    else if !r.ready then
      if w.state.Ready? then w.(state := Unservable) else w
    else if w.state.Ready? then w
    else if m.Lagging? then
      if m.overdue && !w.lagReported then w.(lagReported := true, lagSeq := w.lagSeq + 1) else w
    else w.(state := Ready, uid := r.uid, lagReported := false)
  }

  function ClassifyPublishes(w: Worker, r: Read, m: Mapping, slot: Observation): Observation {
    if !r.Found? || r.deleting then slot
    else if !r.ready then
      if w.state.Ready? then Observation(Unservable, r.uid, r.reason, false, None, w.lagSeq) else slot
    else if w.state.Ready? then slot
    else if m.Lagging? then
      if m.overdue && !w.lagReported then slot.(lagErr := Some(m.err), lagSeq := w.lagSeq + 1) else slot
    else Observation(Ready, r.uid, "", !w.state.Unservable? && w.IsLate(r.uid), None, w.lagSeq)
  }

  /** The worker as the source writes it: one read updates its fields and publishes. */
  class CrdWorker {
    var state: CrdState
    var uid: UID
    var sawAbsent: bool
    var firstUid: UID
    var lagReported: bool
    var lagSeq: nat
    var slot: Observation

    function View(): Worker
      reads this
    {
      Worker(state, uid, sawAbsent, firstUid, lagReported, lagSeq)
    }

    constructor ()
      ensures View() == NEW_WORKER && slot == NOTHING_OBSERVED
    {
      state, uid, sawAbsent, firstUid := Unknown, "", false, "";
      lagReported, lagSeq, slot := false, 0, NOTHING_OBSERVED;
    }

    method RemoveObserved()
      modifies this
      ensures View() == old(View()).(state := Removed, sawAbsent := true, lagReported := false)
      ensures slot == Observation(Removed, old(uid), "", false, None, old(lagSeq))
    {
      slot := Observation(Removed, uid, "", false, None, lagSeq);
      state, sawAbsent := Removed, true;
      lagReported := false;
    }

    /** The CRD is present and not being deleted. */
    method JudgeReadiness(u: UID, ready: bool, reason: string, m: Mapping) returns (retry: bool)
      modifies this
      ensures View() == Classify(old(View()), Found(u, false, ready, reason), m)
      ensures slot == ClassifyPublishes(old(View()), Found(u, false, ready, reason), m, old(slot))
      ensures retry == (ready && !old(state).Ready? && m.Lagging?)
    {
      if !ready {
        if state == Ready {
          state := Unservable;
          slot := Observation(Unservable, u, reason, false, None, lagSeq);
        }
        return false;
      }
      if state == Ready {
        return false;
      }
      if m.Lagging? {
        if m.overdue && !lagReported {
          lagReported, lagSeq := true, lagSeq + 1;
          slot := slot.(lagErr := Some(m.err), lagSeq := lagSeq);
        }
        return true;
      }
      lagReported := false;
      var late := state != Unservable && (sawAbsent || (firstUid != "" && firstUid != u));
      state, uid := Ready, u;
      slot := Observation(Ready, u, "", late, None, lagSeq);
      return false;
    }

    /** Reports whether the read should be retried. */
    method ReadCrd(r: Read, m: Mapping) returns (retry: bool)
      modifies this
      ensures
        var w1 := Absorb(old(View()), r);
        var s1 := AbsorbPublishes(old(View()), r, old(slot));
        && View() == Classify(w1, r, m)
        && slot == ClassifyPublishes(w1, r, m, s1)
        && retry == (r.ReadFailed? || (r.Found? && !r.deleting && r.ready && !w1.state.Ready? && m.Lagging?))
    {
      match r {
        case NotFound =>
          sawAbsent := true;
          if state == Ready || state == Unservable {
            RemoveObserved();
          }
          return false;
        case ReadFailed =>
          return true;
        case Found(u, deleting, ready, reason) =>
          if firstUid == "" {
            firstUid := u;
          }
          var tracked := state == Ready || state == Unservable;
          if tracked && u != uid {
            RemoveObserved();
            tracked := false;
          }
          if deleting {
            if tracked {
              RemoveObserved();
            }
            return false;
          }
          retry := JudgeReadiness(u, ready, reason, m);
      }
    }
  }

  // ------------------------------------------------------------------------- the protocol

  /** Where the worker stands between its read and its two publications. */
  datatype Phase = Idle | Got(r: Read) | Absorbed(r: Read)

  datatype State = State(
    crd: Crd,
    used: set<UID>,
    confirmed: set<UID>,
    worker: Worker,
    phase: Phase,
    slot: Observation,
    allowed: bool,
    kind: Kind)

  datatype Step =
    | Create(uid: UID, ready: bool, reason: string)
    | Change(ready: bool, reason: string)
    | BeginDelete
    | FinishDelete
    | DoRead(fails: bool)
    | DoAbsorb
    | DoClassify(mapping: Mapping)
    | Allow(allowed: bool)
    | Apply
    | RunnerReports(report: Report)

  function FullRead(crd: Crd): Read {
    match crd
    case Absent => NotFound
    case Installed(u, d, ok, reason) => Found(u, d, ok, reason)
  }

  /** UIDs are never reused and deletion is never undone; a step that is not possible in `s`
      leaves it unchanged. */
  function Next(s: State, step: Step): State {
    match step
    case Create(u, ready, reason) =>
      if s.crd.Absent? && u !in s.used && u != "" then
        s.(crd := Installed(u, false, ready, reason), used := s.used + {u})
      else s
    case Change(ready, reason) =>
      if s.crd.Installed? then s.(crd := s.crd.(ready := ready, reason := reason)) else s
    case BeginDelete =>
      if s.crd.Installed? then s.(crd := s.crd.(deleting := true)) else s
    case FinishDelete => s.(crd := Absent)
    case DoRead(fails) =>
      if !s.phase.Idle? then s
      else if fails then s.(phase := Got(ReadFailed))
      else
        var r := FullRead(s.crd);
        s.(phase := Got(r), confirmed := s.confirmed + set g | g in s.used && ShowsGone(r, g))
    case DoAbsorb =>
      if !s.phase.Got? then s
      else s.(worker := Absorb(s.worker, s.phase.r), phase := Absorbed(s.phase.r),
              slot := AbsorbPublishes(s.worker, s.phase.r, s.slot))
    case DoClassify(m) =>
      if !s.phase.Absorbed? then s
      else s.(worker := Classify(s.worker, s.phase.r, m), phase := Idle,
              slot := ClassifyPublishes(s.worker, s.phase.r, m, s.slot))
    case Allow(a) => s.(allowed := a)
    case Apply => s.(kind := ApplyKind(s.kind, s.slot, s.allowed))
    case RunnerReports(r) => s.(kind := Hear(s.kind, r))
  }

  /** The supervisor starts beside a cluster whose CRD is in some state. */
  function Start(crd: Crd, allowed: bool): State
  {
    State(crd, if crd.Installed? then {crd.uid} else {}, {}, NEW_WORKER, Idle, NOTHING_OBSERVED, allowed, FRESH)
  }

  function Run(s: State, steps: seq<Step>): State {
    if steps == [] then s else Next(Run(s, steps[..|steps| - 1]), steps[|steps| - 1])
  }

  // ------------------------------------------------------------------------- the invariant

  /** Generation `g` is still the one the worker tracks, or a full read has shown it gone. */
  ghost predicate Covered(s: State, g: UID) {
    g in s.confirmed || (s.worker.Tracking() && s.worker.uid == g)
  }

  ghost predicate PendingInv(s: State, atStart: set<UID>, r: Read) {
    match r
    case NotFound => atStart <= s.confirmed
    case ReadFailed => true
    case Found(u, deleting, _, _) =>
      && u in s.used && u != ""
      && atStart - {u} <= s.confirmed
      && (deleting <==> u in s.confirmed)
  }

  ghost predicate WorkerInv(s: State, atStart: set<UID>) {
    && (s.worker.Tracking() ==> s.worker.uid in s.used && atStart - {s.worker.uid} <= s.confirmed)
    && (s.worker.sawAbsent ==> atStart <= s.confirmed)
    && (s.worker.firstUid != "" ==> atStart - {s.worker.firstUid} <= s.confirmed)
    && (s.phase.Got? && s.worker.Tracking() && ShowsGone(s.phase.r, s.worker.uid)
        ==> s.worker.uid in s.confirmed)
    && (s.phase.Absorbed? && s.worker.Tracking() ==> !ShowsGone(s.phase.r, s.worker.uid))
  }

  ghost predicate SlotInv(s: State, atStart: set<UID>) {
    && (s.slot.state.Removed? ==> s.slot.uid in s.confirmed)
    && (s.slot.state.Ready? || s.slot.state.Unservable? ==> s.worker.Tracking() && s.worker.uid == s.slot.uid)
    && (s.slot.state.Ready? && s.slot.late ==> s.slot.uid !in atStart)
  }

  ghost predicate KindInv(s: State, atStart: set<UID>) {
    && Consistent(s.kind)
    && (Present(s.kind.life) ==> Covered(s, s.kind.life.uid))
    && (s.kind.pendingStart ==> s.kind.life.uid !in atStart)
    && (forall e :: e in s.kind.trace && e.Retired? ==> e.uid in s.confirmed)
    && (forall e :: e in s.kind.trace && e.Announced? ==> e.uid !in atStart)
  }

  ghost predicate Inv(s: State, atStart: set<UID>) {
    && atStart <= s.used
    && (s.crd.Installed? ==> s.crd.uid in s.used && s.crd.uid != "")
    && s.confirmed <= s.used
    && (forall g :: g in s.confirmed ==> !Live(s.crd, g))
    && (s.phase.Got? || s.phase.Absorbed? ==> PendingInv(s, atStart, s.phase.r))
    && WorkerInv(s, atStart)
    && SlotInv(s, atStart)
    && KindInv(s, atStart)
  }

  lemma ClusterStepKeeps(s: State, atStart: set<UID>, step: Step)
    requires Inv(s, atStart)
    requires step.Create? || step.Change? || step.BeginDelete? || step.FinishDelete? || step.Allow?
    ensures Inv(Next(s, step), atStart)
  {
  }

  lemma ReadKeeps(s: State, atStart: set<UID>, fails: bool)
    requires Inv(s, atStart)
    ensures Inv(Next(s, DoRead(fails)), atStart)
  {
  }

  lemma AbsorbKeeps(s: State, atStart: set<UID>)
    requires Inv(s, atStart)
    ensures Inv(Next(s, DoAbsorb), atStart)
  {
    if s.phase.Got? {
      var r, w := s.phase.r, s.worker;
      if w.Tracking() && ShowsGone(r, w.uid) && r.Found? && !r.deleting {
        // a live replacement is not one of the generations present at startup
        assert r.uid !in s.confirmed && r.uid != w.uid;
      }
      assert WorkerInv(Next(s, DoAbsorb), atStart);
    }
  }

  lemma ClassifyKeeps(s: State, atStart: set<UID>, m: Mapping)
    requires Inv(s, atStart)
    ensures Inv(Next(s, DoClassify(m)), atStart)
  {
  }

  predicate Routine(e: Event) { e.Started? || e.Stopped? || e.Swept? }

  lemma RetireEvents(k: Kind, e: Event)
    requires e in Retire(k).trace && e !in k.trace
    ensures Routine(e) || e == Retired(k.life.uid)
  {
  }

  lemma AdvanceEvents(k: Kind, obs: Observation, allowed: bool, e: Event)
    requires e in Advance(k, obs, allowed).trace && e !in k.trace
    ensures Routine(e)
  {
  }

  lemma SettleEvents(k: Kind, allowed: bool, e: Event)
    requires e in Settle(k, allowed).trace && e !in k.trace
    ensures Routine(e)
  {
  }

  /** An apply adds starts, stops and sweeps, and retires at most the generation it acts on,
      when the observation ends it. */
  lemma ApplyEvents(k: Kind, obs: Observation, allowed: bool, e: Event)
    ensures e in ApplyKind(k, obs, allowed).trace ==>
      e in k.trace || Routine(e) || (e == Retired(k.life.uid) && Supersedes(obs, k.life))
  {
    var k0 := ReportLag(k, obs);
    var k1 := if Supersedes(obs, k0.life) then Retire(k0) else k0;
    var k2 := Advance(k1, obs, allowed);
    if e in Settle(k2, allowed).trace && e !in k2.trace { SettleEvents(k2, allowed, e); }
    if e in k2.trace && e !in k1.trace { AdvanceEvents(k1, obs, allowed, e); }
    if e in k1.trace && e !in k0.trace { RetireEvents(k0, e); }
  }

  lemma RetireClearsPending(k: Kind)
    requires k.pendingStart ==> k.runner.Some?
    ensures !Retire(k).pendingStart
  {
  }

  lemma AdvancePending(k: Kind, obs: Observation, allowed: bool)
    requires Advance(k, obs, allowed).pendingStart
    ensures k.pendingStart || (obs.state.Ready? && obs.late && !Present(k.life))
    ensures k.pendingStart || Advance(k, obs, allowed).life.uid == obs.uid
  {
  }

  lemma SettlePending(k: Kind, allowed: bool)
    ensures Settle(k, allowed).pendingStart ==> k.pendingStart
    ensures Settle(k, allowed).life == k.life
  {
  }

  /** An apply keeps acting on its generation or moves to the one observed Ready; a start is
      announced later only if that observation was late. */
  lemma ApplyMovesTo(k: Kind, obs: Observation, allowed: bool)
    requires Consistent(k)
    ensures
      var k' := ApplyKind(k, obs, allowed);
      && (Present(k'.life) ==>
           (Present(k.life) && k'.life.uid == k.life.uid) || (obs.state.Ready? && k'.life.uid == obs.uid))
      && (k'.pendingStart ==>
            || (k.pendingStart && k'.life.uid == k.life.uid)
            || (obs.state.Ready? && obs.late && k'.life.uid == obs.uid))
  {
    ApplyLife(k, obs, allowed);
    var k0 := ReportLag(k, obs);
    if Supersedes(obs, k0.life) { RetireClearsPending(k0); }
    var k1 := if Supersedes(obs, k0.life) then Retire(k0) else k0;
    if Advance(k1, obs, allowed).pendingStart { AdvancePending(k1, obs, allowed); }
    SettlePending(Advance(k1, obs, allowed), allowed);
  }

  lemma ApplyKeeps(s: State, atStart: set<UID>)
    requires Inv(s, atStart)
    ensures Inv(Next(s, Apply), atStart)
  {
    var s' := Next(s, Apply);
    ApplySettles(s.kind, s.slot, s.allowed);
    ApplyMovesTo(s.kind, s.slot, s.allowed);
    assert Consistent(s'.kind);
    forall e | e in s'.kind.trace && (e.Retired? || e.Announced?)
      ensures e.Retired? ==> e.uid in s.confirmed
      ensures e.Announced? ==> e.uid !in atStart
    {
      if e !in s.kind.trace { ApplyEvents(s.kind, s.slot, s.allowed, e); }
    }
    assert KindInv(s', atStart);
  }

  lemma ReportKeeps(s: State, atStart: set<UID>, r: Report)
    requires Inv(s, atStart)
    ensures Inv(Next(s, RunnerReports(r)), atStart)
  {
  }

  lemma {:induction false} RunKeeps(crd: Crd, allowed: bool, steps: seq<Step>)
    requires crd.Installed? ==> crd.uid != ""
    ensures Inv(Run(Start(crd, allowed), steps), Start(crd, allowed).used)
  {
    if steps != [] {
      var atStart := Start(crd, allowed).used;
      RunKeeps(crd, allowed, steps[..|steps| - 1]);
      var s := Run(Start(crd, allowed), steps[..|steps| - 1]);
      match steps[|steps| - 1]
      case DoRead(fails) => ReadKeeps(s, atStart, fails);
      case DoAbsorb => AbsorbKeeps(s, atStart);
      case DoClassify(m) => ClassifyKeeps(s, atStart, m);
      case Apply => ApplyKeeps(s, atStart);
      case RunnerReports(r) => ReportKeeps(s, atStart, r);
      case step => ClusterStepKeeps(s, atStart, step);
    }
  }

  // -------------------------------------------------------------------------- the theorems

  /** In every interleaving: a generation is retired only if an earlier full read showed it gone,
      and it is indeed no longer live in the cluster.  Failed reads and CRDs that are merely not
      Ready add nothing to `confirmed`, so they never cause a retirement. */
  lemma RetiredOnlyWhenGone(crd: Crd, allowed: bool, steps: seq<Step>, g: UID)
    requires crd.Installed? ==> crd.uid != ""
    requires Retired(g) in Run(Start(crd, allowed), steps).kind.trace
    ensures
      var s := Run(Start(crd, allowed), steps);
      g in s.confirmed && !Live(s.crd, g)
  {
    RunKeeps(crd, allowed, steps);
  }

  /** Once a full read has shown a generation gone, no later step brings it back. */
  lemma {:induction false} GoneForGood(crd: Crd, allowed: bool, steps: seq<Step>, more: seq<Step>, g: UID)
    requires crd.Installed? ==> crd.uid != ""
    requires g in Run(Start(crd, allowed), steps).confirmed
    ensures
      var s := Run(Start(crd, allowed), steps + more);
      g in s.confirmed && !Live(s.crd, g)
  {
    var all := steps + more;
    RunKeeps(crd, allowed, all);
    if more == [] {
      assert all == steps;
    } else {
      assert all[..|all| - 1] == steps + more[..|more| - 1];
      GoneForGood(crd, allowed, steps, more[..|more| - 1], g);
    }
  }

  /** WatchStarted is announced only for a CRD that did not exist when the supervisor started. */
  lemma AnnouncedOnlyIfInstalledLater(crd: Crd, allowed: bool, steps: seq<Step>, g: UID)
    requires crd.Installed? ==> crd.uid != ""
    requires Announced(g) in Run(Start(crd, allowed), steps).kind.trace
    ensures crd.Installed? ==> g != crd.uid
  {
    RunKeeps(crd, allowed, steps);
  }

  /** What a step is to the kind: an apply with the observation and allowlist it saw, a report,
      or nothing. */
  function TurnOf(s: State, step: Step): seq<Turn> {
    match step
    case Apply => [Applied(s.slot, s.allowed)]
    case RunnerReports(r) => [Heard(r)]
    case _ => []
  }

  function TurnsOf(s: State, steps: seq<Step>): seq<Turn> {
    if steps == [] then []
    else
      var init := steps[..|steps| - 1];
      TurnsOf(s, init) + TurnOf(Run(s, init), steps[|steps| - 1])
  }

  lemma StepIsTurn(s: State, step: Step, turns: seq<Turn>)
    requires s.kind == Play(FRESH, turns)
    ensures Next(s, step).kind == Play(FRESH, turns + TurnOf(s, step))
  {
    var all := turns + TurnOf(s, step);
    if step.Apply? || step.RunnerReports? {
      assert all[..|all| - 1] == turns;
    } else {
      assert all == turns;
    }
  }

  /** The kind's part of the protocol is exactly a play of its turns, so what holds of every
      play holds of every interleaving. */
  lemma {:induction false} RunIsPlay(crd: Crd, allowed: bool, steps: seq<Step>)
    ensures
      var s := Start(crd, allowed);
      Run(s, steps).kind == Play(FRESH, TurnsOf(s, steps))
  {
    if steps != [] {
      var s, init := Start(crd, allowed), steps[..|steps| - 1];
      RunIsPlay(crd, allowed, init);
      StepIsTurn(Run(s, init), steps[|steps| - 1], TurnsOf(s, init));
    }
  }

  /** Every crd-removed sweep in every interleaving belongs to the retirement of a generation
      that an earlier full read had shown gone. */
  lemma RemovalSweepsConfirmed(crd: Crd, allowed: bool, steps: seq<Step>, i: nat)
    requires crd.Installed? ==> crd.uid != ""
    requires
      var t := Run(Start(crd, allowed), steps).kind.trace;
      i < |t| && t[i] == Swept(CrdRemoved)
    ensures
      var s := Run(Start(crd, allowed), steps);
      exists g :: Retired(g) in s.kind.trace[..i] && g in s.confirmed
  {
    var s := Run(Start(crd, allowed), steps);
    RunIsPlay(crd, allowed, steps);
    RemovalSweepsFollowRetirement(TurnsOf(Start(crd, allowed), steps), i);
    var j :| 0 <= j < i && s.kind.trace[j].Retired?;
    var g := s.kind.trace[j].uid;
    assert s.kind.trace[..i][j] == Retired(g);
    RetiredOnlyWhenGone(crd, allowed, steps, g);
  }

  // ---------------------------------------------------------------------------- convergence

  /** The slot says what the worker last concluded. */
  ghost predicate Mirrors(s: State) {
    && s.slot.state == s.worker.state && (!s.worker.state.Unknown? ==> s.slot.uid == s.worker.uid)
    && s.slot.lagSeq == s.worker.lagSeq && s.kind.lagReported <= s.slot.lagSeq
  }

  lemma PublishMirrors(s: State, atStart: set<UID>, step: Step)
    requires Mirrors(s) && WorkerInv(s, atStart) && (step.DoAbsorb? || step.DoClassify?)
    ensures Mirrors(Next(s, step))
  {
  }

  lemma HearMirrors(s: State, r: Report)
    requires Mirrors(s)
    ensures Mirrors(Next(s, RunnerReports(r)))
  {
  }

  lemma MirrorStep(s: State, atStart: set<UID>, step: Step)
    requires Mirrors(s) && WorkerInv(s, atStart)
    ensures Mirrors(Next(s, step))
  {
    match step
    case Apply => ApplyLag(s.kind, s.slot, s.allowed);
    case DoAbsorb => PublishMirrors(s, atStart, step);
    case DoClassify(_) => PublishMirrors(s, atStart, step);
    case RunnerReports(r) => HearMirrors(s, r);
    case _ =>
  }

  lemma {:induction false} RunMirrors(crd: Crd, allowed: bool, steps: seq<Step>)
    requires crd.Installed? ==> crd.uid != ""
    ensures Mirrors(Run(Start(crd, allowed), steps))
  {
    if steps != [] {
      RunMirrors(crd, allowed, steps[..|steps| - 1]);
      RunKeeps(crd, allowed, steps[..|steps| - 1]);
      MirrorStep(Run(Start(crd, allowed), steps[..|steps| - 1]), Start(crd, allowed).used, steps[|steps| - 1]);
    }
  }

  /** One successful read, through both publications, and one apply. */
  const CYCLE: seq<Step> := [DoRead(false), DoAbsorb, DoClassify(Resolved), Apply]

  lemma ReadyRead(s: State)
    requires Mirrors(s) && s.phase.Idle? && s.crd.Installed? && !s.crd.deleting && s.crd.ready
    ensures
      var s' := Next(Next(Next(s, DoRead(false)), DoAbsorb), DoClassify(Resolved));
      s'.slot.state.Ready? && s'.slot.uid == s.crd.uid && s'.kind == s.kind && s'.allowed == s.allowed
  {
  }

  lemma RunFour(s: State, a: Step, b: Step, c: Step, d: Step)
    ensures Run(s, [a, b, c, d]) == Next(Next(Next(Next(s, a), b), c), d)
  {
    assert [a, b, c, d][..3] == [a, b, c] && [a, b, c][..2] == [a, b] && [a, b][..1] == [a];
    assert Run(s, [a]) == Next(s, a);
    assert Run(s, [a, b]) == Next(Next(s, a), b);
    assert Run(s, [a, b, c]) == Next(Next(Next(s, a), b), c);
  }

  lemma ReadyCycle(s: State)
    requires Consistent(s.kind) && Mirrors(s) && s.phase.Idle?
    requires s.crd.Installed? && !s.crd.deleting && s.crd.ready
    ensures
      var k := Run(s, CYCLE).kind;
      && k.life.state.Ready? && k.life.uid == s.crd.uid && k.activated && k.tracked
      && k.runner == if s.allowed then Some(s.crd.uid) else None
  {
    RunFour(s, DoRead(false), DoAbsorb, DoClassify(Resolved), Apply);
    ReadyRead(s);
    var slot := Next(Next(Next(s, DoRead(false)), DoAbsorb), DoClassify(Resolved)).slot;
    ReadyTakesOver(s.kind, slot, s.allowed);
  }

  lemma {:induction false} RunAppend(s: State, xs: seq<Step>, ys: seq<Step>)
    ensures Run(s, xs + ys) == Run(Run(s, xs), ys)
  {
    var all := xs + ys;
    if ys == [] {
      assert all == xs;
    } else {
      RunAppend(s, xs, ys[..|ys| - 1]);
      assert all[..|all| - 1] == xs + ys[..|ys| - 1];
    }
  }

  /** Whatever happened before: once the CRD is installed and ready, finishing the read in hand,
      one more successful read and one apply leave the supervisor acting on exactly this
      generation, with a runner for it exactly when the kind is allowed. */
  lemma ReadyConverges(crd: Crd, allowed: bool, steps: seq<Step>, m: Mapping)
    requires crd.Installed? ==> crd.uid != ""
    requires
      var s := Run(Start(crd, allowed), steps);
      s.crd.Installed? && !s.crd.deleting && s.crd.ready
    ensures
      var s := Run(Start(crd, allowed), steps);
      var k := Run(Start(crd, allowed), steps + [DoAbsorb, DoClassify(m)] + CYCLE).kind;
      && k.life.state.Ready? && k.life.uid == s.crd.uid && k.activated && k.tracked
      && k.runner == if s.allowed then Some(s.crd.uid) else None
  {
    var s0 := Start(crd, allowed);
    var s, finish := Run(s0, steps), [DoAbsorb, DoClassify(m)];
    RunAppend(s0, steps, finish);
    RunAppend(s0, steps + finish, CYCLE);
    assert finish[..1] == [DoAbsorb] && Run(s, [DoAbsorb]) == Next(s, DoAbsorb);
    var s1 := Run(s0, steps + finish);
    assert s1 == Next(Next(s, DoAbsorb), DoClassify(m));
    RunKeeps(crd, allowed, steps + finish);
    RunMirrors(crd, allowed, steps + finish);
    ReadyCycle(s1);
  }

  lemma GoneRead(s: State)
    requires Mirrors(s) && s.phase.Idle? && (s.crd.Absent? || s.crd.deleting)
    ensures
      var s' := Next(Next(Next(s, DoRead(false)), DoAbsorb), DoClassify(Resolved));
      && s'.slot.state == (if s.worker.state.Unknown? then Unknown else Removed)
      && (!s.worker.state.Unknown? ==> s'.slot.uid == s.worker.uid)
      && s'.kind == s.kind && s'.allowed == s.allowed
  {
  }

  lemma GoneCycle(s: State)
    requires Mirrors(s) && s.phase.Idle? && (s.crd.Absent? || s.crd.deleting)
    ensures
      !Present(Run(s, CYCLE).kind.life) <==>
      !Present(s.kind.life) || (!s.worker.state.Unknown? && s.kind.life.uid == s.worker.uid)
  {
    RunFour(s, DoRead(false), DoAbsorb, DoClassify(Resolved), Apply);
    GoneRead(s);
    ApplyLife(s.kind, Next(Next(Next(s, DoRead(false)), DoAbsorb), DoClassify(Resolved)).slot, s.allowed);
  }

  /** A CRD that is gone: between reads, one successful read and one apply retire the kind exactly
      when the generation acted on is the one the worker last tracked.  A generation whose end was
      overwritten before apply saw it is not retired. */
  lemma GoneConverges(crd: Crd, allowed: bool, steps: seq<Step>)
    requires crd.Installed? ==> crd.uid != ""
    requires
      var s := Run(Start(crd, allowed), steps);
      s.phase.Idle? && (s.crd.Absent? || s.crd.deleting)
    ensures
      var s := Run(Start(crd, allowed), steps);
      var k := Run(Start(crd, allowed), steps + CYCLE).kind;
      !Present(k.life) <==> !Present(s.kind.life) || (!s.worker.state.Unknown? && s.kind.life.uid == s.worker.uid)
  {
    RunAppend(Start(crd, allowed), steps, CYCLE);
    RunMirrors(crd, allowed, steps);
    GoneCycle(Run(Start(crd, allowed), steps));
  }

  lemma UnreadyRead(s: State)
    requires Mirrors(s) && s.phase.Idle? && s.crd.Installed? && !s.crd.deleting && !s.crd.ready
    requires s.worker.state.Ready? && s.worker.uid == s.crd.uid
    ensures
      var s' := Next(Next(Next(s, DoRead(false)), DoAbsorb), DoClassify(Resolved));
      && s'.slot == Observation(Unservable, s.crd.uid, s.crd.reason, false, None, s.worker.lagSeq)
      && s'.kind == s.kind && s'.allowed == s.allowed
  {
  }

  /** A CRD that stops being ready while its watch runs: one read and one apply stop the watch, keep
      the kind tracked, and an allowed kind is unhealthy with the reason. */
  lemma UnreadyConverges(crd: Crd, allowed: bool, steps: seq<Step>)
    requires crd.Installed? ==> crd.uid != ""
    requires
      var s := Run(Start(crd, allowed), steps);
      && s.phase.Idle? && s.crd.Installed? && !s.crd.deleting && !s.crd.ready
      && s.worker.state.Ready? && s.worker.uid == s.crd.uid && s.kind.life.state.Ready? && s.kind.life.uid == s.crd.uid
    ensures
      var s := Run(Start(crd, allowed), steps);
      var k := Run(Start(crd, allowed), steps + CYCLE).kind;
      && k.life == Life(Unservable, s.crd.uid, s.crd.reason) && k.runner.None? && k.tracked
      && (s.allowed ==> !k.Health().healthy && k.Health().lastError == "CRD no longer serves the kind: " + s.crd.reason)
  {
    var s0 := Start(crd, allowed);
    var s := Run(s0, steps);
    RunAppend(s0, steps, CYCLE);
    RunMirrors(crd, allowed, steps);
    RunKeeps(crd, allowed, steps);
    RunFour(s, DoRead(false), DoAbsorb, DoClassify(Resolved), Apply);
    UnreadyRead(s);
    var slot := Observation(Unservable, s.crd.uid, s.crd.reason, false, None, s.worker.lagSeq);
    ApplyLife(s.kind, slot, s.allowed);
    ApplySettles(s.kind, slot, s.allowed);
    if s.allowed { UnservableIsUnhealthy(s.kind, slot); }
  }

  lemma LaggingRead(s: State, err: string)
    requires Mirrors(s) && s.phase.Idle? && s.crd.Installed? && !s.crd.deleting && s.crd.ready
    requires !s.worker.Tracking() && !s.worker.lagReported
    ensures
      var s' := Next(Next(Next(s, DoRead(false)), DoAbsorb), DoClassify(Lagging(true, err)));
      && s'.slot == s.slot.(lagErr := Some(err), lagSeq := s.worker.lagSeq + 1)
      && s'.kind == s.kind && s'.allowed == s.allowed
  {
  }

  /** A ready CRD that discovery still does not resolve when its time is up: one read and one apply
      make the kind unhealthy with that error, and start nothing. */
  lemma LagConverges(crd: Crd, allowed: bool, steps: seq<Step>, err: string)
    requires crd.Installed? ==> crd.uid != ""
    requires
      var s := Run(Start(crd, allowed), steps);
      && s.phase.Idle? && s.crd.Installed? && !s.crd.deleting && s.crd.ready
      && !s.worker.Tracking() && !s.worker.lagReported && !Present(s.kind.life)
    ensures
      var s := Run(Start(crd, allowed), steps);
      var k := Run(Start(crd, allowed), steps + [DoRead(false), DoAbsorb, DoClassify(Lagging(true, err)), Apply]).kind;
      k.runner.None? && !k.Health().healthy && k.Health().lastError == err && k.trace == s.kind.trace
  {
    var s0 := Start(crd, allowed);
    var s := Run(s0, steps);
    RunAppend(s0, steps, [DoRead(false), DoAbsorb, DoClassify(Lagging(true, err)), Apply]);
    RunMirrors(crd, allowed, steps);
    RunKeeps(crd, allowed, steps);
    RunFour(s, DoRead(false), DoAbsorb, DoClassify(Lagging(true, err)), Apply);
    LaggingRead(s, err);
    LagIsUnhealthy(s.kind, s.slot.(lagErr := Some(err), lagSeq := s.worker.lagSeq + 1), s.allowed);
  }

  /** The evidence a read leaves: absence or removal is remembered for good, and so is the first
      generation found. */
  lemma EvidenceExact(w: Worker, r: Read)
    ensures Absorb(w, r).sawAbsent <==>
      w.sawAbsent || r.NotFound? || (w.Tracking() && r.Found? && (r.uid != w.uid || r.deleting))
    ensures Absorb(w, r).firstUid == if w.firstUid == "" && r.Found? then r.uid else w.firstUid
  {
  }

  lemma LateRead(s: State)
    requires Mirrors(s) && s.phase.Idle? && s.crd.Installed? && !s.crd.deleting && s.crd.ready
    requires !s.worker.Tracking()
    requires s.worker.sawAbsent || (s.worker.firstUid != "" && s.worker.firstUid != s.crd.uid)
    ensures
      var s' := Next(Next(Next(s, DoRead(false)), DoAbsorb), DoClassify(Resolved));
      && s'.slot.state.Ready? && s'.slot.uid == s.crd.uid && s'.slot.late
      && s'.kind == s.kind && s'.allowed == s.allowed
  {
  }

  lemma RunOneMore(s: State, xs: seq<Step>, step: Step)
    ensures Run(s, xs + [step]) == Next(Run(s, xs), step)
  {
    assert (xs + [step])[..|xs|] == xs;
  }

  const FIRST_SYNC: seq<Step> := CYCLE + [RunnerReports(Synced)]

  lemma LateTurns(s: State)
    requires Consistent(s.kind) && !Present(s.kind.life) && s.allowed && s.slot.state.Ready? && s.slot.late
    ensures
      var k := Next(Next(s, Apply), RunnerReports(Synced)).kind;
      k.trace == s.kind.trace + [Started(s.slot.uid), Announced(s.slot.uid)]
  {
    LateStartAnnounced(s.kind, s.slot);
    var t := s.kind.trace;
    assert t + [Started(s.slot.uid)] + [Announced(s.slot.uid)] == t + [Started(s.slot.uid), Announced(s.slot.uid)];
  }

  lemma LateCycle(s: State)
    requires Consistent(s.kind) && !Present(s.kind.life) && s.allowed
    requires Mirrors(s) && s.phase.Idle? && s.crd.Installed? && !s.crd.deleting && s.crd.ready
    requires !s.worker.Tracking()
    requires s.worker.sawAbsent || (s.worker.firstUid != "" && s.worker.firstUid != s.crd.uid)
    ensures Run(s, FIRST_SYNC).kind.trace == s.kind.trace + [Started(s.crd.uid), Announced(s.crd.uid)]
  {
    RunOneMore(s, CYCLE, RunnerReports(Synced));
    RunFour(s, DoRead(false), DoAbsorb, DoClassify(Resolved), Apply);
    LateRead(s);
    LateTurns(Next(Next(Next(s, DoRead(false)), DoAbsorb), DoClassify(Resolved)));
  }

  /** A CRD installed after a read had shown it absent, or in place of the one first found: one read,
    one apply and the first sync of its
      watch announce it. */
  lemma LateInstallAnnounced(crd: Crd, allowed: bool, steps: seq<Step>)
    requires crd.Installed? ==> crd.uid != ""
    requires
      var s := Run(Start(crd, allowed), steps);
      && s.phase.Idle? && s.crd.Installed? && !s.crd.deleting && s.crd.ready && s.allowed
      && !s.worker.Tracking() && !Present(s.kind.life)
      && (s.worker.sawAbsent || (s.worker.firstUid != "" && s.worker.firstUid != s.crd.uid))
    ensures
      var s := Run(Start(crd, allowed), steps);
      Run(Start(crd, allowed), steps + FIRST_SYNC).kind.trace
      == s.kind.trace + [Started(s.crd.uid), Announced(s.crd.uid)]
  {
    RunAppend(Start(crd, allowed), steps, FIRST_SYNC);
    RunMirrors(crd, allowed, steps);
    RunKeeps(crd, allowed, steps);
    LateCycle(Run(Start(crd, allowed), steps));
  }

  /** The CRD is deleted and installed again, and the worker reads the new one. */
  const REPLACE: seq<Step> := [FinishDelete, Create("b", true, ""), DoRead(false), DoAbsorb, DoClassify(Resolved)]

  /** The CRD stops being ready, and the worker reads that. */
  const DEGRADE: seq<Step> := [Change(false, "not served"), DoRead(false), DoAbsorb, DoClassify(Resolved)]

  /** The slot keeps only the newest observation, so a removal can be overwritten before apply
      sees it.  Here generation "a" is replaced by "b", which becomes Ready and then unservable
      between two applies: "a" is shown gone by a full read, yet its runner keeps running and no
      further apply on this observation stops it. */
  const OVERWRITTEN: seq<Step> := CYCLE + REPLACE + DEGRADE + [Apply]

  lemma AdoptRun(s: State)
    requires s == Start(Installed("a", false, true, ""), true)
    ensures
      var s' := Run(s, CYCLE);
      && s'.used == {"a"} && s'.allowed && s'.phase.Idle?
      && s'.worker == Worker(Ready, "a", false, "a", false, 0)
      && s'.kind.runner == Some("a") && s'.kind.life == Life(Ready, "a", "") && s'.kind.lagReported == 0
  {
    RunFour(s, DoRead(false), DoAbsorb, DoClassify(Resolved), Apply);
    var s3 := Next(Next(Next(s, DoRead(false)), DoAbsorb), DoClassify(Resolved));
    assert s3.slot == Observation(Ready, "a", "", false, None, 0);
  }

  lemma ReplaceRun(s: State)
    requires s.used == {"a"} && s.phase.Idle? && s.worker == Worker(Ready, "a", false, "a", false, 0)
    ensures
      var s' := Run(s, REPLACE);
      && "a" in s'.confirmed && s'.crd.Installed? && s'.crd.uid == "b" && !s'.crd.deleting
      && s'.phase.Idle? && s'.worker == Worker(Ready, "b", true, "a", false, 0)
      && s'.kind == s.kind && s'.allowed == s.allowed
  {
    RunFour(s, FinishDelete, Create("b", true, ""), DoRead(false), DoAbsorb);
    assert REPLACE[..4] == [FinishDelete, Create("b", true, ""), DoRead(false), DoAbsorb];
    var s2 := Next(Next(s, FinishDelete), Create("b", true, ""));
    assert s2 == s.(crd := Installed("b", false, true, ""), used := {"a", "b"});
    var s3 := Next(s2, DoRead(false));
    assert ShowsGone(s3.phase.r, "a") && "a" in s3.confirmed;
    assert Next(s3, DoAbsorb).worker == Worker(Removed, "a", true, "a", false, 0);
  }

  lemma DegradeRun(s: State)
    requires s.crd.Installed? && s.crd.uid == "b" && !s.crd.deleting && s.phase.Idle?
    requires s.worker == Worker(Ready, "b", true, "a", false, 0)
    ensures
      var s' := Run(s, DEGRADE);
      && s.confirmed <= s'.confirmed
      && s'.slot == Observation(Unservable, "b", "not served", false, None, 0)
      && s'.kind == s.kind && s'.allowed == s.allowed
  {
    RunFour(s, Change(false, "not served"), DoRead(false), DoAbsorb, DoClassify(Resolved));
    var s2 := Next(Next(s, Change(false, "not served")), DoRead(false));
    assert Next(s2, DoAbsorb).worker == s.worker;
  }

  lemma OverwrittenRemovalStrands()
    ensures
      var s := Run(Start(Installed("a", false, true, ""), true), OVERWRITTEN);
      && "a" in s.confirmed && s.slot.uid == "b" && s.slot.state.Unservable?
      && s.kind.runner == Some("a")
      && Next(s, Apply) == s
  {
    var s0 := Start(Installed("a", false, true, ""), true);
    RunAppend(s0, CYCLE + REPLACE + DEGRADE, [Apply]);
    RunAppend(s0, CYCLE + REPLACE, DEGRADE);
    RunAppend(s0, CYCLE, REPLACE);
    AdoptRun(s0);
    var s1 := Run(s0, CYCLE);
    ReplaceRun(s1);
    var s2 := Run(s1, REPLACE);
    DegradeRun(s2);
    var s3 := Run(s2, DEGRADE);
    assert Run(s3, [Apply]) == Next(s3, Apply) == s3;
  }
}
