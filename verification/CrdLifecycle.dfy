/**
 One supervised kind as the apply loop sees it (internal/controller/watch_supervisor.go) and
 what every sequence of applies keeps.

 `ApplyKind` is the specification of one iteration of `apply`; the object in WatchSupervisor.dfy
 is proved against it.  `trace` records runner starts and stops (a stop is recorded once the
 runner has been awaited), sweeps and retirements in the order they happen.
 */
module CrdLifecycle {
  import opened Common
  import opened WatchHealth

  datatype CrdState = Unknown | Ready | Unservable | Removed

  /** What discovery last confirmed about a candidate's CRD. */
  datatype Observation = Observation(
    state: CrdState,
    uid: UID,
    reason: string,
    late: bool,
    lagErr: Option<string>,
    lagSeq: nat)

  const NOTHING_OBSERVED := Observation(Unknown, "", "", false, None, 0)

  /** The CRD generation `apply` last acted on. */
  datatype Life = Life(state: CrdState, uid: UID, reason: string)

  predicate Present(life: Life) { life.state.Ready? || life.state.Unservable? }

  datatype Event =
    | Started(uid: UID)
    | Stopped(uid: UID)
    | Swept(why: DisabledReason)
    | Retired(uid: UID)
    | Announced(uid: UID)

  /** `runner` holds the generation the running watch was started for. */
  datatype Kind = Kind(
    life: Life,
    activated: bool,
    tracked: bool,
    runner: Option<UID>,
    pendingStart: bool,
    lagReported: nat,
    health: Option<Status>,
    trace: seq<Event>)
  {
    function Health(): Status { if health.Some? then health.value else STARTING }
  }

  const FRESH := Kind(Life(Unknown, "", ""), false, false, None, false, 0, None, [])

  // ---------------------------------------------------------------- one iteration of apply

  function StopRunner(k: Kind): Kind {
    match k.runner
    case None => k
    case Some(u) => k.(runner := None, pendingStart := false, trace := k.trace + [Stopped(u)])
  }

  /** Disabling sweeps only on the transition into the disabled state. */
  function Disable(k: Kind, why: DisabledReason): Kind {
    var k1 := k.(health := Some(AsDisabled(why)));
    if k.Health().disabled then k1 else k1.(trace := k.trace + [Swept(why)])
  }

  function Retire(k: Kind): Kind {
    var k1 := StopRunner(k.(trace := k.trace + [Retired(k.life.uid)])).(tracked := false);
    Disable(k1, CrdRemoved).(activated := false, life := Life(Removed, "", ""))
  }

  function Activate(k: Kind): Kind {
    if k.activated then k
    else k.(activated := true, tracked := true, health := Some(k.Health()))
  }

  function MarkUnservable(k: Kind): Kind {
    k.(health := Some(AsUnhealthy(k.Health(), "CRD no longer serves the kind: " + k.life.reason)))
  }

  function ApplyAllowlist(k: Kind, allowed: bool): Kind {
    if allowed then
      if k.runner.None? then
        k.(health := Some(STARTING), runner := Some(k.life.uid), trace := k.trace + [Started(k.life.uid)])
      else k
    else Disable(StopRunner(k), ByConfig)
  }

  /** A Ready CRD the API server's discovery cannot resolve is reported once per report. */
  function ReportLag(k: Kind, obs: Observation): Kind {
    if obs.lagSeq > k.lagReported && obs.lagErr.Some? then
      k.(lagReported := obs.lagSeq, health := Some(AsUnhealthy(k.Health(), obs.lagErr.value)))
    else k
  }

  /** The observation ends the generation `apply` is acting on. */
  predicate Supersedes(obs: Observation, life: Life) {
    Present(life) &&
    ((obs.state.Removed? && obs.uid == life.uid) || (obs.state.Ready? && obs.uid != life.uid))
  }

  function Advance(k: Kind, obs: Observation, allowed: bool): Kind {
    if obs.state.Ready? && !Present(k.life) then
      var k1 := Activate(k.(life := Life(Ready, obs.uid, "")));
      if allowed && !k.activated && obs.late then k1.(pendingStart := true) else k1
    else if obs.state.Ready? && k.life.state.Unservable? then
      k.(life := Life(Ready, k.life.uid, ""))
    else if obs.state.Unservable? && k.life.state.Ready? && obs.uid == k.life.uid then
      var k1 := StopRunner(k.(life := Life(Unservable, k.life.uid, obs.reason)));
      if allowed then MarkUnservable(k1) else k1
    else k
  }

  function Settle(k: Kind, allowed: bool): Kind {
    match k.life.state
    case Ready => ApplyAllowlist(k, allowed)
    case Unservable =>
      if !allowed then Disable(k, ByConfig)
      else if k.Health().disabled then MarkUnservable(k)
      else k
    case _ => k
  }

  function ApplyKind(k: Kind, obs: Observation, allowed: bool): Kind {
    var k0 := ReportLag(k, obs);
    if obs.state.Unknown? && k0.life.state.Unknown? then k0
    else
      var k1 := if Supersedes(obs, k0.life) then Retire(k0) else k0;
      Settle(Advance(k1, obs, allowed), allowed)
  }

  // ------------------------------------------------------------------ reports of the runner

  /** What a running watch reports; a runner reports only while it is running. */
  datatype Report = Synced | ProbeOk(synced: bool) | Failed(err: string)

  function Hear(k: Kind, r: Report): Kind {
    if k.runner.None? then k
    else match r
      case Synced =>
        var announce := k.pendingStart && !k.Health().healthy;
        k.(health := Some(AsHealthy()), pendingStart := false,
           trace := k.trace + if announce then [Announced(k.runner.value)] else [])
      case ProbeOk(synced) =>
        if !synced && k.pendingStart then k else k.(health := Some(AsHealthy()))
      case Failed(err) => k.(health := Some(AsUnhealthy(k.Health(), err)))
  }

  // ------------------------------------------------------------ what every apply establishes

  /** Holds of a kind whenever no apply is in progress. */
  ghost predicate Consistent(k: Kind) {
    && (k.activated <==> Present(k.life))
    && (k.tracked <==> Present(k.life))
    && (k.runner.Some? ==> k.life.state.Ready? && k.runner.value == k.life.uid)
    && (k.runner.Some? ==> !k.Health().disabled)
    && (k.pendingStart ==> k.runner.Some?)
    && (Present(k.life) ==> k.health.Some?)
  }

  /** The runner and the tracked set follow the recorded life and the allowlist. */
  ghost predicate Settled(k: Kind, allowed: bool) {
    && Consistent(k)
    && (k.runner.Some? <==> k.life.state.Ready? && allowed)
  }

  lemma AdvanceKeeps(k: Kind, obs: Observation, allowed: bool)
    requires Consistent(k) && !Supersedes(obs, k.life)
    ensures
      var k' := Advance(k, obs, allowed);
      && Consistent(k'.(pendingStart := false))
      && (k'.pendingStart ==> k'.runner.Some? || (k'.life.state.Ready? && allowed))
  {
  }

  lemma RetireKeeps(k: Kind)
    requires Consistent(k)
    ensures Consistent(Retire(k)) && !Present(Retire(k).life)
  {
  }

  lemma SettleSettles(k: Kind, allowed: bool)
    requires Consistent(k.(pendingStart := false))
    requires k.pendingStart ==> k.runner.Some? || (k.life.state.Ready? && allowed)
    ensures Settled(Settle(k, allowed), allowed)
  {
  }

  /** Every completed apply leaves a runner exactly for an allowed Ready kind, and the kind
      activated and tracked exactly while its CRD is present. */
  lemma ApplySettles(k: Kind, obs: Observation, allowed: bool)
    requires Consistent(k)
    ensures Settled(ApplyKind(k, obs, allowed), allowed)
  {
    var k0 := ReportLag(k, obs);
    assert Consistent(k0);
    RetireKeeps(k0);
    var k1 := if Supersedes(obs, k0.life) then Retire(k0) else k0;
    AdvanceKeeps(k1, obs, allowed);
    SettleSettles(Advance(k1, obs, allowed), allowed);
  }

  /** Nothing is left for apply to do. */
  ghost predicate Quiet(k: Kind, obs: Observation, allowed: bool) {
    && Settled(k, allowed)
    && (obs.lagErr.Some? ==> obs.lagSeq <= k.lagReported)
    && !Supersedes(obs, k.life)
    && (obs.state.Ready? ==> k.life.state.Ready?)
    && (obs.state.Unservable? && k.life.state.Ready? ==> obs.uid != k.life.uid)
    && (Present(k.life) && !allowed ==> k.health == Some(AsDisabled(ByConfig)))
    && (k.life.state.Unservable? && allowed ==> !k.Health().disabled)
  }

  lemma AdvanceReaches(k: Kind, obs: Observation, allowed: bool)
    requires !Supersedes(obs, k.life)
    ensures
      var k' := Advance(k, obs, allowed);
      && k'.lagReported == k.lagReported
      && !Supersedes(obs, k'.life)
      && (obs.state.Ready? ==> k'.life.state.Ready?)
      && (obs.state.Unservable? && k'.life.state.Ready? ==> obs.uid != k'.life.uid)
  {
  }

  lemma SettleDecides(k: Kind, allowed: bool)
    ensures
      var k' := Settle(k, allowed);
      && k'.life == k.life && k'.lagReported == k.lagReported
      && (Present(k.life) && !allowed ==> k'.health == Some(AsDisabled(ByConfig)))
      && (k.life.state.Unservable? && allowed ==> !k'.Health().disabled)
  {
  }

  lemma ApplyQuiets(k: Kind, obs: Observation, allowed: bool)
    requires Consistent(k)
    ensures Quiet(ApplyKind(k, obs, allowed), obs, allowed)
  {
    ApplySettles(k, obs, allowed);
    var k0 := ReportLag(k, obs);
    if !(obs.state.Unknown? && k0.life.state.Unknown?) {
      var k1 := if Supersedes(obs, k0.life) then Retire(k0) else k0;
      AdvanceReaches(k1, obs, allowed);
      SettleDecides(Advance(k1, obs, allowed), allowed);
    }
  }

  /** Applying the same observation and allowlist again changes nothing at all: no runner, no
      health entry, no sweep, no event. */
  lemma ApplyIdempotent(k: Kind, obs: Observation, allowed: bool)
    requires Consistent(k)
    ensures
      var once := ApplyKind(k, obs, allowed);
      ApplyKind(once, obs, allowed) == once
  {
    ApplyQuiets(k, obs, allowed);
  }

  /** The generation acted on and the newest observation name the same CRD in the same state,
      or the kind is not present at all. */
  ghost predicate Agrees(life: Life, obs: Observation) {
    Present(life) ==> life.state == obs.state && life.uid == obs.uid
  }

  /** What an apply does to the generation acted on, whatever the allowlist. */
  function LifeAfter(life: Life, obs: Observation): Life {
    var l := if Supersedes(obs, life) then Life(Removed, "", "") else life;
    if obs.state.Ready? && !l.state.Ready? then Life(Ready, if Present(l) then l.uid else obs.uid, "")
    else if obs.state.Unservable? && l.state.Ready? && obs.uid == l.uid then Life(Unservable, l.uid, obs.reason)
    else l
  }

  lemma AdvanceLife(k: Kind, obs: Observation, allowed: bool)
    requires !Supersedes(obs, k.life)
    ensures Advance(k, obs, allowed).life == LifeAfter(k.life, obs)
  {
  }

  lemma ApplyLife(k: Kind, obs: Observation, allowed: bool)
    ensures ApplyKind(k, obs, allowed).life == LifeAfter(k.life, obs)
  {
    var k0 := ReportLag(k, obs);
    if !(obs.state.Unknown? && k0.life.state.Unknown?) {
      var k1 := if Supersedes(obs, k0.life) then Retire(k0) else k0;
      assert k1.life == if Supersedes(obs, k.life) then Life(Removed, "", "") else k.life;
      AdvanceLife(k1, obs, allowed);
      SettleDecides(Advance(k1, obs, allowed), allowed);
    }
  }

  /** A lag report is taken note of once, by its number. */
  lemma ApplyLag(k: Kind, obs: Observation, allowed: bool)
    ensures ApplyKind(k, obs, allowed).lagReported ==
            if obs.lagErr.Some? && obs.lagSeq > k.lagReported then obs.lagSeq else k.lagReported
  {
    var k0 := ReportLag(k, obs);
    var k1 := if Supersedes(obs, k0.life) then Retire(k0) else k0;
    if !(obs.state.Unknown? && k0.life.state.Unknown?) {
      AdvanceReaches(k1, obs, allowed);
      SettleDecides(Advance(k1, obs, allowed), allowed);
    }
  }

  /** Apply catches up with the newest observation exactly when that observation is Ready, is
      about the generation acted on, or the kind is not present.  In every other case the
      observation that ended the old generation was overwritten before apply saw it, and the
      old generation stays in place. */
  lemma ApplyCatchesUp(k: Kind, obs: Observation, allowed: bool)
    requires !obs.state.Unknown?
    ensures Agrees(ApplyKind(k, obs, allowed).life, obs) <==>
            obs.state.Ready? || obs.uid == k.life.uid || !Present(k.life)
  {
    ApplyLife(k, obs, allowed);
  }

  /** A Ready observation takes over whatever the kind was doing. */
  lemma ReadyTakesOver(k: Kind, obs: Observation, allowed: bool)
    requires Consistent(k) && obs.state.Ready?
    ensures
      var k' := ApplyKind(k, obs, allowed);
      && k'.life.state.Ready? && k'.life.uid == obs.uid && k'.activated && k'.tracked
      && k'.runner == if allowed then Some(obs.uid) else None
  {
    ApplyLife(k, obs, allowed);
    ApplySettles(k, obs, allowed);
  }

  // ------------------------------------------- between two generations: stop, then sweep

  ghost predicate SweptFrom(trace: seq<Event>, a: nat) {
    exists b :: a < b < |trace| && trace[b].Swept?
  }

  ghost predicate StoppedFrom(trace: seq<Event>, i: nat, u: UID) {
    exists a :: i < a < |trace| && trace[a] == Stopped(u)
  }

  /** After position `i` the runner of `u` was stopped and awaited, and then a sweep ran. */
  ghost predicate StoppedThenSwept(trace: seq<Event>, i: nat, u: UID) {
    exists a :: i < a < |trace| && trace[a] == Stopped(u) && SweptFrom(trace, a)
  }

  /** Between the starts of two different generations, the first is stopped and then swept. */
  ghost predicate GenerationsSeparated(trace: seq<Event>) {
    forall i, j :: 0 <= i < j < |trace| && trace[i].Started? && trace[j].Started? && trace[i].uid != trace[j].uid
      ==> StoppedThenSwept(trace[..j], i, trace[i].uid)
  }

  /** Where a generation that was started stands: still running; stopped but not yet swept,
      in which case the kind is not disabled and the next disable will sweep; or finished. */
  ghost predicate StartAccounted(k: Kind, i: nat, u: UID) {
    || StoppedThenSwept(k.trace, i, u)
    || k.runner == Some(u)
    || (Present(k.life) && k.life.uid == u && StoppedFrom(k.trace, i, u) && !k.Health().disabled)
  }

  ghost predicate Accounted(k: Kind) {
    && GenerationsSeparated(k.trace)
    && forall i :: 0 <= i < |k.trace| && k.trace[i].Started? ==> StartAccounted(k, i, k.trace[i].uid)
  }

  lemma StoppedThenSweptGrows(t: seq<Event>, t': seq<Event>, i: nat, u: UID)
    requires t <= t' && StoppedThenSwept(t, i, u)
    ensures StoppedThenSwept(t', i, u)
  {
    var a :| i < a < |t| && t[a] == Stopped(u) && SweptFrom(t, a);
    var b :| a < b < |t| && t[b].Swept?;
    assert t'[a] == t[a] && t'[b] == t[b];
  }

  lemma StoppedFromGrows(t: seq<Event>, t': seq<Event>, i: nat, u: UID)
    requires t <= t' && StoppedFrom(t, i, u)
    ensures StoppedFrom(t', i, u)
  {
    var a :| i < a < |t| && t[a] == Stopped(u);
    assert t'[a] == t[a];
  }

  lemma SeparatedAppend(t: seq<Event>, e: Event)
    requires GenerationsSeparated(t)
    requires e.Started? ==>
      forall i :: 0 <= i < |t| && t[i].Started? && t[i].uid != e.uid ==> StoppedThenSwept(t, i, t[i].uid)
    ensures GenerationsSeparated(t + [e])
  {
    var t' := t + [e];
    forall i, j | 0 <= i < j < |t'| && t'[i].Started? && t'[j].Started? && t'[i].uid != t'[j].uid
      ensures StoppedThenSwept(t'[..j], i, t'[i].uid)
    {
      assert t'[..j] == t[..j];
      if j == |t| { assert t[..j] == t; }
    }
  }

  /** Appending an event that is no start keeps the account when the kind's other fields still
      justify it. */
  lemma AccountedAppend(k: Kind, k': Kind, e: Event)
    requires Accounted(k) && k'.trace == k.trace + [e] && !e.Started?
    requires k'.runner == k.runner || (k.runner.Some? && k'.runner.None? && e == Stopped(k.runner.value)
                                       && Present(k'.life) && k'.life.uid == k.runner.value && !k'.Health().disabled)
    requires !e.Swept? ==> k'.life.uid == k.life.uid && Present(k'.life) == Present(k.life)
                           && (k'.Health().disabled ==> k.Health().disabled)
    ensures Accounted(k')
  {
    SeparatedAppend(k.trace, e);
    forall i | 0 <= i < |k'.trace| && k'.trace[i].Started?
      ensures StartAccounted(k', i, k'.trace[i].uid)
    {
      var u := k.trace[i].uid;
      if StoppedThenSwept(k.trace, i, u) {
        StoppedThenSweptGrows(k.trace, k'.trace, i, u);
      } else if k.runner == Some(u) {
        assert k'.trace[|k.trace|] == e;
      } else {
        StoppedFromGrows(k.trace, k'.trace, i, u);
        if e.Swept? {
          var a :| i < a < |k.trace| && k.trace[a] == Stopped(u);
          assert k'.trace[a] == Stopped(u) && k'.trace[|k.trace|].Swept?;
        }
      }
    }
  }

  lemma StopKeepsAccount(k: Kind)
    requires Accounted(k)
    requires k.runner.Some? ==> Present(k.life) && k.life.uid == k.runner.value && !k.Health().disabled
    ensures Accounted(StopRunner(k))
  {
    if k.runner.Some? {
      AccountedAppend(k, StopRunner(k), Stopped(k.runner.value));
    }
  }

  /** A disabled kind without a runner owes no sweep to any generation. */
  ghost predicate NothingOwed(k: Kind) {
    forall i :: 0 <= i < |k.trace| && k.trace[i].Started? ==> StoppedThenSwept(k.trace, i, k.trace[i].uid)
  }

  lemma DisableKeepsAccount(k: Kind, why: DisabledReason)
    requires Accounted(k) && k.runner.None?
    ensures Accounted(Disable(k, why)) && NothingOwed(Disable(k, why))
  {
    if !k.Health().disabled {
      AccountedAppend(k, Disable(k, why), Swept(why));
    }
  }

  lemma RetireKeepsAccount(k: Kind)
    requires Accounted(k) && Consistent(k) && Present(k.life)
    ensures Accounted(Retire(k)) && NothingOwed(Retire(k))
  {
    var k0 := k.(trace := k.trace + [Retired(k.life.uid)]);
    AccountedAppend(k, k0, Retired(k.life.uid));
    StopKeepsAccount(k0);
    DisableKeepsAccount(StopRunner(k0).(tracked := false), CrdRemoved);
  }

  lemma StartKeepsAccount(k: Kind)
    requires Accounted(k) && k.runner.None? && k.life.state.Ready?
    ensures Accounted(ApplyAllowlist(k, true))
  {
    var k' := ApplyAllowlist(k, true);
    SeparatedAppend(k.trace, Started(k.life.uid));
    forall i | 0 <= i < |k'.trace| && k'.trace[i].Started?
      ensures StartAccounted(k', i, k'.trace[i].uid)
    {
      if i < |k.trace| && StoppedThenSwept(k.trace, i, k.trace[i].uid) {
        StoppedThenSweptGrows(k.trace, k'.trace, i, k.trace[i].uid);
      }
    }
  }

  lemma AdvanceKeepsAccount(k: Kind, obs: Observation, allowed: bool)
    requires Accounted(k) && Consistent(k) && !Supersedes(obs, k.life)
    requires !Present(k.life) ==> NothingOwed(k)
    ensures Accounted(Advance(k, obs, allowed))
  {
    if obs.state.Unservable? && k.life.state.Ready? && obs.uid == k.life.uid {
      StopKeepsAccount(k.(life := Life(Unservable, k.life.uid, obs.reason)));
    }
  }

  lemma SettleKeepsAccount(k: Kind, allowed: bool)
    requires Accounted(k) && Consistent(k.(pendingStart := false))
    ensures Accounted(Settle(k, allowed))
  {
    if k.life.state.Ready? {
      if !allowed {
        StopKeepsAccount(k);
        DisableKeepsAccount(StopRunner(k), ByConfig);
      } else if k.runner.None? {
        StartKeepsAccount(k);
      }
    } else if k.life.state.Unservable? && !allowed {
      DisableKeepsAccount(k, ByConfig);
    }
  }

  /** The account and the absence of debts of a kind that is not present. */
  ghost predicate Orderly(k: Kind) {
    && Consistent(k)
    && Accounted(k)
    && (!Present(k.life) ==> NothingOwed(k))
  }

  lemma ApplyKeepsOrder(k: Kind, obs: Observation, allowed: bool)
    requires Orderly(k)
    ensures Orderly(ApplyKind(k, obs, allowed))
  {
    ApplySettles(k, obs, allowed);
    var k0 := ReportLag(k, obs);
    assert Orderly(k0);
    if Supersedes(obs, k0.life) { RetireKeepsAccount(k0); }
    var k1 := if Supersedes(obs, k0.life) then Retire(k0) else k0;
    AdvanceKeeps(k1, obs, allowed);
    AdvanceKeepsAccount(k1, obs, allowed);
    SettleKeepsAccount(Advance(k1, obs, allowed), allowed);
  }

  lemma HearKeepsOrder(k: Kind, r: Report)
    requires Orderly(k)
    ensures Orderly(Hear(k, r))
  {
    if k.runner.Some? && r.Synced? && k.pendingStart && !k.Health().healthy {
      AccountedAppend(k, Hear(k, r), Announced(k.runner.value));
    } else {
      assert Hear(k, r).trace == k.trace;
    }
  }

  /** What happens to a supervised kind: an apply of some observation under some allowlist, or
      a report from its runner. */
  datatype Turn = Applied(obs: Observation, allowed: bool) | Heard(report: Report)

  function Play(k: Kind, turns: seq<Turn>): Kind {
    if turns == [] then k
    else
      var before := Play(k, turns[..|turns| - 1]);
      match turns[|turns| - 1]
      case Applied(obs, allowed) => ApplyKind(before, obs, allowed)
      case Heard(r) => Hear(before, r)
  }

  lemma {:induction false} PlayKeepsOrder(turns: seq<Turn>)
    ensures Orderly(Play(FRESH, turns))
  {
    if turns != [] {
      PlayKeepsOrder(turns[..|turns| - 1]);
      var before := Play(FRESH, turns[..|turns| - 1]);
      match turns[|turns| - 1]
      case Applied(obs, allowed) => ApplyKeepsOrder(before, obs, allowed);
      case Heard(r) => HearKeepsOrder(before, r);
    }
  }

  /** In every run, whatever the observations, the allowlists and the reports: between starting
      runners for two different generations the first runner was stopped and awaited, and the
      kind was swept after that stop and before the second start. */
  lemma SweptBetweenGenerations(turns: seq<Turn>, i: nat, j: nat)
    requires
      var t := Play(FRESH, turns).trace;
      i < j < |t| && t[i].Started? && t[j].Started? && t[i].uid != t[j].uid
    ensures
      var t := Play(FRESH, turns).trace;
      exists a, b :: i < a < b < j && t[a] == Stopped(t[i].uid) && t[b].Swept?
  {
    var t := Play(FRESH, turns).trace;
    PlayKeepsOrder(turns);
    assert StoppedThenSwept(t[..j], i, t[i].uid);
    var a :| i < a < j && t[..j][a] == Stopped(t[i].uid) && SweptFrom(t[..j], a);
    var b :| a < b < j && t[..j][b].Swept?;
    assert t[a] == Stopped(t[i].uid) && t[b].Swept?;
  }

  // ------------------------------------------------------------- what the health entry says

  /** A kind is healthy only while its watch runs; it is disabled as removed only while its CRD is
      gone, by configuration only while it is present, and a reason is given exactly when it is
      disabled. */
  ghost predicate HealthTrue(k: Kind) {
    && (k.Health().healthy ==> k.runner.Some? && !k.Health().disabled)
    && (k.Health().disabled <==> !k.Health().reason.NotDisabled?)
    && (k.Health().reason.CrdRemoved? ==> k.life.state.Removed?)
    && (k.Health().reason.ByConfig? ==> Present(k.life))
  }

  /** What is still to be settled when the life has moved. */
  ghost predicate HealthPending(k: Kind, allowed: bool) {
    && (k.Health().healthy ==> !k.Health().disabled && (k.runner.Some? || (k.life.state.Unservable? && !allowed)))
    && (k.Health().disabled <==> !k.Health().reason.NotDisabled?)
    && (k.Health().reason.CrdRemoved? ==> k.life.state.Removed? || (k.life.state.Ready? && k.runner.None?))
    && (k.Health().reason.ByConfig? ==> Present(k.life))
  }

  lemma AdvanceKeepsHealth(k: Kind, obs: Observation, allowed: bool)
    requires Consistent(k) && HealthTrue(k) && !Supersedes(obs, k.life)
    ensures HealthPending(Advance(k, obs, allowed), allowed)
  {
  }

  lemma AllowlistKeepsHealth(k: Kind, allowed: bool)
    requires HealthPending(k, allowed) && k.life.state.Ready?
    ensures HealthTrue(ApplyAllowlist(k, allowed))
  {
  }

  lemma SettleKeepsHealth(k: Kind, allowed: bool)
    requires HealthPending(k, allowed)
    ensures HealthTrue(Settle(k, allowed))
  {
    if k.life.state.Ready? { AllowlistKeepsHealth(k, allowed); }
  }

  lemma ApplyKeepsHealth(k: Kind, obs: Observation, allowed: bool)
    requires Consistent(k) && HealthTrue(k)
    ensures HealthTrue(ApplyKind(k, obs, allowed))
  {
    var k0 := ReportLag(k, obs);
    assert Consistent(k0) && HealthTrue(k0);
    RetireKeeps(k0);
    assert HealthTrue(Retire(k0));
    var k1 := if Supersedes(obs, k0.life) then Retire(k0) else k0;
    if !(obs.state.Unknown? && k0.life.state.Unknown?) {
      AdvanceKeepsHealth(k1, obs, allowed);
      SettleKeepsHealth(Advance(k1, obs, allowed), allowed);
    }
  }

  /** Over every play: a healthy kind is running, so an unservable, removed or never seen kind is not
      healthy. */
  lemma {:induction false} HealthyIsRunning(turns: seq<Turn>)
    ensures HealthTrue(Play(FRESH, turns))
    ensures !Play(FRESH, turns).life.state.Ready? ==> !Play(FRESH, turns).Health().healthy
  {
    PlayKeepsOrder(turns);
    if turns != [] {
      var init := turns[..|turns| - 1];
      HealthyIsRunning(init);
      PlayKeepsOrder(init);
      match turns[|turns| - 1]
      case Applied(obs, allowed) => ApplyKeepsHealth(Play(FRESH, init), obs, allowed);
      case Heard(r) =>
    }
  }

  /** After every apply a kind is disabled by configuration if and only if its CRD is present and it
      is not allowed. */
  lemma DisabledByConfigExactly(turns: seq<Turn>, obs: Observation, allowed: bool)
    ensures
      var k := Play(FRESH, turns + [Applied(obs, allowed)]);
      k.Health().reason.ByConfig? <==> Present(k.life) && !allowed
  {
    var all := turns + [Applied(obs, allowed)];
    assert all[..|turns|] == turns;
    var before := Play(FRESH, turns);
    PlayKeepsOrder(turns);
    ApplyQuiets(before, obs, allowed);
    HealthyIsRunning(all);
  }

  /** A CRD that stops serving its kind: the watch is stopped, and an allowed kind is unhealthy with
      the reason, one failure more than before. */
  lemma UnservableIsUnhealthy(k: Kind, obs: Observation)
    requires Consistent(k) && k.life.state.Ready? && obs.state.Unservable? && obs.uid == k.life.uid
    requires obs.lagErr.None?
    ensures
      var k' := ApplyKind(k, obs, true);
      && k'.life == Life(Unservable, k.life.uid, obs.reason) && k'.runner.None?
      && k'.health == Some(Status(false, "CRD no longer serves the kind: " + obs.reason,
                                  k.Health().failures + 1, false, NotDisabled))
  {
  }

  /** A new lag report on a kind that is not running and not excluded: unhealthy with its error, and
      nothing else happens. */
  lemma LagIsUnhealthy(k: Kind, obs: Observation, allowed: bool)
    requires Consistent(k) && !k.life.state.Ready? && (allowed || !Present(k.life))
    requires !obs.state.Ready? && !Supersedes(obs, k.life) && obs.lagErr.Some? && obs.lagSeq > k.lagReported
    ensures
      var unhealthy := Status(false, obs.lagErr.value, k.Health().failures + 1, false, NotDisabled);
      ApplyKind(k, obs, allowed) == k.(lagReported := obs.lagSeq, health := Some(unhealthy))
  {
  }

  /** What a running watch reports is what the health entry says; the reports of a watch that does not
      run are ignored. */
  lemma HeardIsHealth(k: Kind, r: Report)
    ensures k.runner.None? ==> Hear(k, r) == k
    ensures k.runner.Some? && r.Synced? ==>
      Hear(k, r).health == Some(Status(true, "", 0, false, NotDisabled)) && !Hear(k, r).pendingStart
    ensures k.runner.Some? && r.ProbeOk? && (r.synced || !k.pendingStart) ==>
      Hear(k, r) == k.(health := Some(Status(true, "", 0, false, NotDisabled)))
    ensures k.runner.Some? && r.ProbeOk? && !r.synced && k.pendingStart ==> Hear(k, r) == k
    ensures k.runner.Some? && r.Failed? ==>
      Hear(k, r) == k.(health := Some(Status(false, r.err, k.Health().failures + 1, false, NotDisabled)))
  {
  }

  /** A kind first seen Ready by a late observation, while allowed, is announced by its first sync and
      by nothing before it. */
  lemma LateStartAnnounced(k: Kind, obs: Observation)
    requires Consistent(k) && !Present(k.life) && obs.state.Ready? && obs.late
    ensures
      var started := ApplyKind(k, obs, true);
      && started.trace == k.trace + [Started(obs.uid)]
      && Hear(started, Synced).trace == started.trace + [Announced(obs.uid)]
  {
  }

  // --------------------------------------------- a crd-removed sweep belongs to a retirement

  ghost predicate RetiredBefore(trace: seq<Event>, i: nat)
    requires i <= |trace|
  {
    exists j :: 0 <= j < i && trace[j].Retired? && forall x :: j < x < i ==> trace[x].Stopped?
  }

  ghost predicate RemovalSweepsJustified(trace: seq<Event>) {
    forall i :: 0 <= i < |trace| && trace[i] == Swept(CrdRemoved) ==> RetiredBefore(trace, i)
  }

  lemma JustifiedAppend(t: seq<Event>, e: Event)
    requires RemovalSweepsJustified(t)
    requires e == Swept(CrdRemoved) ==> RetiredBefore(t, |t|)
    ensures RemovalSweepsJustified(t + [e])
  {
    var t' := t + [e];
    forall i | 0 <= i < |t'| && t'[i] == Swept(CrdRemoved)
      ensures RetiredBefore(t', i)
    {
      var j :| 0 <= j < i && t[j].Retired? && forall x :: j < x < i ==> t[x].Stopped?;
      assert t'[j].Retired? && forall x :: j < x < i ==> t'[x].Stopped?;
    }
  }

  lemma StopJustified(k: Kind)
    requires RemovalSweepsJustified(k.trace)
    ensures RemovalSweepsJustified(StopRunner(k).trace)
  {
    if k.runner.Some? { JustifiedAppend(k.trace, Stopped(k.runner.value)); }
  }

  lemma RetireJustified(k: Kind)
    requires RemovalSweepsJustified(k.trace)
    ensures RemovalSweepsJustified(Retire(k).trace)
  {
    var k0 := k.(trace := k.trace + [Retired(k.life.uid)]);
    JustifiedAppend(k.trace, Retired(k.life.uid));
    StopJustified(k0);
    var k1 := StopRunner(k0).(tracked := false);
    if !k1.Health().disabled {
      assert k1.trace[|k.trace|].Retired?;
      JustifiedAppend(k1.trace, Swept(CrdRemoved));
    }
  }

  lemma SettleJustified(k: Kind, allowed: bool)
    requires RemovalSweepsJustified(k.trace)
    ensures RemovalSweepsJustified(Settle(k, allowed).trace)
  {
    StopJustified(k);
    JustifiedAppend(k.trace, Started(k.life.uid));
    JustifiedAppend(k.trace, Swept(ByConfig));
    JustifiedAppend(StopRunner(k).trace, Swept(ByConfig));
  }

  lemma ApplyJustified(k: Kind, obs: Observation, allowed: bool)
    requires RemovalSweepsJustified(k.trace)
    ensures RemovalSweepsJustified(ApplyKind(k, obs, allowed).trace)
  {
    var k0 := ReportLag(k, obs);
    RetireJustified(k0);
    var k1 := if Supersedes(obs, k0.life) then Retire(k0) else k0;
    StopJustified(k1.(life := Life(Unservable, k1.life.uid, obs.reason)));
    SettleJustified(Advance(k1, obs, allowed), allowed);
  }

  lemma {:induction false} PlayJustified(turns: seq<Turn>)
    ensures RemovalSweepsJustified(Play(FRESH, turns).trace)
  {
    if turns != [] {
      PlayJustified(turns[..|turns| - 1]);
      var before := Play(FRESH, turns[..|turns| - 1]);
      match turns[|turns| - 1]
      case Applied(obs, allowed) => ApplyJustified(before, obs, allowed);
      case Heard(r) =>
        if before.runner.Some? { JustifiedAppend(before.trace, Announced(before.runner.value)); }
        assert before.trace + [] == before.trace;
    }
  }

  /** In every run a crd-removed sweep comes right after its kind was retired, with nothing but
      the stop of its runner between the two. */
  lemma RemovalSweepsFollowRetirement(turns: seq<Turn>, i: nat)
    requires
      var t := Play(FRESH, turns).trace;
      i < |t| && t[i] == Swept(CrdRemoved)
    ensures
      var t := Play(FRESH, turns).trace;
      exists j :: 0 <= j < i && t[j].Retired? && forall x :: j < x < i ==> t[x].Stopped?
  {
    PlayJustified(turns);
    assert RetiredBefore(Play(FRESH, turns).trace, i);
  }
}
