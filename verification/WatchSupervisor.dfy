/**
 The apply loop over all supervised kinds (internal/controller/watch_supervisor.go), as an object
 whose maps it updates in place, proved against `CrdLifecycle.ApplyKind` kind by kind.

 The supervisor has a client and a live context: cancellation during an apply is not modelled.
 */
module WatchSupervisor {
  import opened Common
  import opened WatchHealth
  import opened CrdLifecycle
  import opened WorkloadKinds

  datatype Watch = Watch(name: string, gk: GroupKind)

  class Supervisor {
    const watches: seq<Watch>
    const health: Health
    var runners: map<string, UID>
    var life: map<string, Life>
    var activated: set<string>
    var lagReported: map<string, nat>
    var pendingStart: set<string>
    var tracked: set<GroupKind>
    var obs: map<string, Observation>
    ghost var traces: map<string, seq<Event>>

    /** Kinds are listed once. */
    ghost predicate Valid() {
      forall i, j :: 0 <= i < j < |watches| ==> watches[i].name != watches[j].name && watches[i].gk != watches[j].gk
    }

    constructor (watches: seq<Watch>, health: Health)
      requires forall i, j :: 0 <= i < j < |watches| ==>
        watches[i].name != watches[j].name && watches[i].gk != watches[j].gk
      requires health.kinds == map[]
      ensures Valid() && this.watches == watches && this.health == health
      ensures forall w :: View(w) == FRESH && Observed(w.name) == NOTHING_OBSERVED
    {
      this.watches, this.health := watches, health;
      runners, life, activated, lagReported := map[], map[], {}, map[];
      pendingStart, tracked, obs, traces := {}, {}, map[], map[];
    }

    function LifeOf(name: string): Life
      reads this
    {
      if name in life then life[name] else Life(Unknown, "", "")
    }

    function Observed(name: string): Observation
      reads this
    {
      if name in obs then obs[name] else NOTHING_OBSERVED
    }

    function LagReported(name: string): nat
      reads this
    {
      if name in lagReported then lagReported[name] else 0
    }

    ghost function TraceOf(name: string): seq<Event>
      reads this
    {
      if name in traces then traces[name] else []
    }

    /** One kind's part of the supervisor's state. */
    ghost function View(w: Watch): Kind
      reads this, health
    {
      Kind(
        LifeOf(w.name),
        w.name in activated,
        w.gk in tracked,
        if w.name in runners then Some(runners[w.name]) else None,
        w.name in pendingStart,
        LagReported(w.name),
        if w.name in health.kinds then Some(health.kinds[w.name]) else None,
        TraceOf(w.name))
    }

    ghost predicate Elsewhere(v: Watch, w: Watch) { v.name != w.name && v.gk != w.gk }

    /** Discovery publishes; only apply acts on what is published. */
    method Publish(name: string, o: Observation)
      modifies this`obs
      ensures obs == old(obs)[name := o]
    {
      obs := obs[name := o];
    }

    method StopRunner(w: Watch)
      modifies this`runners, this`pendingStart, this`traces
      ensures View(w) == CrdLifecycle.StopRunner(old(View(w)))
      ensures forall v :: Elsewhere(v, w) ==> View(v) == old(View(v))
    {
      if w.name in runners {
        traces := traces[w.name := TraceOf(w.name) + [Stopped(runners[w.name])]];
        runners := runners - {w.name};
        pendingStart := pendingStart - {w.name};
      }
    }

    method Disable(w: Watch, why: DisabledReason)
      modifies this`traces, health
      ensures View(w) == CrdLifecycle.Disable(old(View(w)), why)
      ensures forall v :: Elsewhere(v, w) ==> View(v) == old(View(v))
    {
      var entered := health.MarkDisabled(w.name, why);
      if !entered {
        return;
      }
      traces := traces[w.name := TraceOf(w.name) + [Swept(why)]];
    }

    method MarkUnservable(w: Watch)
      modifies health
      ensures View(w) == CrdLifecycle.MarkUnservable(old(View(w)))
      ensures forall v :: Elsewhere(v, w) ==> View(v) == old(View(v))
    {
      var _ := health.MarkUnhealthy(w.name, "CRD no longer serves the kind: " + LifeOf(w.name).reason);
    }

    method SetLife(w: Watch, l: Life)
      modifies this`life
      ensures View(w) == old(View(w)).(life := l)
      ensures forall v :: Elsewhere(v, w) ==> View(v) == old(View(v))
    {
      life := life[w.name := l];
    }

    /** Ends the activation, so that a later generation is registered and tracked afresh. */
    method Forget(w: Watch)
      modifies this`activated, this`life
      ensures View(w) == old(View(w)).(activated := false, life := Life(Removed, "", ""))
      ensures forall v :: Elsewhere(v, w) ==> View(v) == old(View(v))
    {
      activated := activated - {w.name};
      life := life[w.name := Life(Removed, "", "")];
    }

    method Untrack(w: Watch)
      modifies this`tracked
      ensures View(w) == old(View(w)).(tracked := false)
      ensures forall v :: Elsewhere(v, w) ==> View(v) == old(View(v))
    {
      tracked := tracked - {w.gk};
    }

    ghost method Record(w: Watch, e: Event)
      modifies this`traces
      ensures View(w) == old(View(w)).(trace := old(View(w)).trace + [e])
      ensures forall v :: Elsewhere(v, w) ==> View(v) == old(View(v))
    {
      traces := traces[w.name := TraceOf(w.name) + [e]];
    }

    method Retire(w: Watch)
      modifies this`runners, this`pendingStart, this`traces, this`tracked, this`activated, this`life, health
      ensures View(w) == CrdLifecycle.Retire(old(View(w)))
      ensures forall v :: Elsewhere(v, w) ==> View(v) == old(View(v))
    {
      Record(w, Retired(LifeOf(w.name).uid));
      StopRunner(w);
      Untrack(w);
      Disable(w, CrdRemoved);
      Forget(w);
    }

    method Activate(w: Watch) returns (first: bool)
      modifies this`activated, this`tracked, health
      ensures View(w) == CrdLifecycle.Activate(old(View(w)))
      ensures first == !old(View(w)).activated
      ensures forall v :: Elsewhere(v, w) ==> View(v) == old(View(v))
    {
      if w.name in activated {
        return false;
      }
      activated := activated + {w.name};
      health.Register(w.name);
      tracked := tracked + {w.gk};
      return true;
    }

    method ApplyAllowlist(w: Watch, allowed: bool)
      modifies this`runners, this`pendingStart, this`traces, health
      ensures View(w) == CrdLifecycle.ApplyAllowlist(old(View(w)), allowed)
      ensures forall v :: Elsewhere(v, w) ==> View(v) == old(View(v))
    {
      var running := w.name in runners;
      if allowed && !running {
        health.MarkStarting(w.name);
        runners := runners[w.name := LifeOf(w.name).uid];
        traces := traces[w.name := TraceOf(w.name) + [Started(LifeOf(w.name).uid)]];
      } else if !allowed && running {
        StopRunner(w);
        Disable(w, ByConfig);
      } else if !allowed {
        Disable(w, ByConfig);
      }
    }

    method ReportLag(w: Watch, o: Observation)
      modifies this`lagReported, health
      ensures View(w) == CrdLifecycle.ReportLag(old(View(w)), o)
      ensures forall v :: Elsewhere(v, w) ==> View(v) == old(View(v))
    {
      if o.lagSeq > LagReported(w.name) && o.lagErr.Some? {
        lagReported := lagReported[w.name := o.lagSeq];
        health.Register(w.name);
        var _ := health.MarkUnhealthy(w.name, o.lagErr.value);
      }
    }

    method Advance(w: Watch, o: Observation, allowed: bool)
      modifies this`runners, this`pendingStart, this`traces, this`tracked, this`activated, this`life, health
      ensures View(w) == CrdLifecycle.Advance(old(View(w)), o, allowed)
      ensures forall v :: Elsewhere(v, w) ==> View(v) == old(View(v))
    {
      var cur := LifeOf(w.name);
      if o.state.Ready? && !Present(cur) {
        SetLife(w, Life(Ready, o.uid, ""));
        var first := Activate(w);
        if allowed && first && o.late {
          pendingStart := pendingStart + {w.name};
        }
      } else if o.state.Ready? && cur.state.Unservable? {
        SetLife(w, Life(Ready, cur.uid, ""));
      } else if o.state.Unservable? && cur.state.Ready? && o.uid == cur.uid {
        SetLife(w, Life(Unservable, cur.uid, o.reason));
        StopRunner(w);
        if allowed {
          MarkUnservable(w);
        }
      }
    }

    method ApplyOne(w: Watch, o: Observation, allowed: bool)
      modifies this`runners, this`pendingStart, this`traces, this`tracked, this`activated, this`life,
               this`lagReported, health
      ensures View(w) == ApplyKind(old(View(w)), o, allowed)
      ensures forall v :: Elsewhere(v, w) ==> View(v) == old(View(v))
    {
      ReportLag(w, o);
      if o.state.Unknown? && LifeOf(w.name).state.Unknown? {
        return;
      }
      if Supersedes(o, LifeOf(w.name)) {
        Retire(w);
      }
      Advance(w, o, allowed);
      var cur := LifeOf(w.name);
      if cur.state.Ready? {
        ApplyAllowlist(w, allowed);
      } else if cur.state.Unservable? {
        if !allowed {
          Disable(w, ByConfig);
        } else if StatusOf(health.kinds, w.name).disabled {
          MarkUnservable(w);
        }
      }
    }

    /** The first sync of a kind discovered after startup is announced. */
    method FirstSync(w: Watch)
      requires w.name in runners
      modifies this`pendingStart, this`traces, health
      ensures View(w) == CrdLifecycle.Hear(old(View(w)), Synced)
      ensures forall v :: Elsewhere(v, w) ==> View(v) == old(View(v))
    {
      var started := w.name in pendingStart;
      pendingStart := pendingStart - {w.name};
      var transition := health.MarkHealthy(w.name, started);
      if started && transition {
        Record(w, Announced(runners[w.name]));
      }
    }

    /** A running watch reports: its first sync, a clean probe, or an error. */
    method Hear(w: Watch, r: Report)
      modifies this`pendingStart, this`traces, health
      ensures View(w) == CrdLifecycle.Hear(old(View(w)), r)
      ensures forall v :: Elsewhere(v, w) ==> View(v) == old(View(v))
    {
      if w.name !in runners {
        return;
      }
      match r {
        case Synced =>
          FirstSync(w);
        case ProbeOk(synced) =>
          if synced || w.name !in pendingStart {
            var _ := health.MarkHealthy(w.name, false);
          }
        case Failed(err) =>
          var _ := health.MarkUnhealthy(w.name, err);
      }
    }

    /** One apply takes every supervised kind through exactly one `ApplyKind`, on its own newest
        observation, and touches no observation. */
    method Apply(allowed: WorkloadKindSet)
      requires Valid()
      modifies this`runners, this`pendingStart, this`traces, this`tracked, this`activated, this`life,
               this`lagReported, health
      ensures forall i :: 0 <= i < |watches| ==>
                View(watches[i]) == ApplyKind(old(View(watches[i])), Observed(watches[i].name),
                  allowed.Allows(watches[i].gk))
    {
      for i := 0 to |watches|
        invariant forall j :: 0 <= j < i ==>
                    View(watches[j]) == ApplyKind(old(View(watches[j])), Observed(watches[j].name),
                      allowed.Allows(watches[j].gk))
        invariant forall j :: i <= j < |watches| ==> View(watches[j]) == old(View(watches[j]))
      {
        var w := watches[i];
        assert forall j :: 0 <= j < |watches| && j != i ==> Elsewhere(watches[j], w);
        ApplyOne(w, Observed(w.name), allowed.Allows(w.gk));
      }
    }
  }
}
