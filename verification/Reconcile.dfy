/**
 The per-workload reconcile machine (internal/controller/workload_reconciler.go and
 internal/controller/status.go): dedup fast path, sink fan-out, hash blanking, error counting and
 condition times, over whole runs.

 One pass reads the persisted AIBOM once; every read, write, scrape, build and delivery of the pass
 may fail, as recorded in its `Pass`.
 */
module Reconcile {
  import opened Common

  type Time = int

  datatype CondType = Ready | Synced | SinkFailed | Stale

  datatype Reason =
    BomGenerated | ScrapeFailed | BuildFailed | AllSinksOk | CrdStatusOnly | SinksDown | ErrorsPersistent

  datatype Condition = Condition(typ: CondType, holds: bool, reason: Reason, since: Time)

  datatype Status = Status(
    inputHash: string,
    errors: int,
    conditions: seq<Condition>,
    lastReconciled: Option<Time>,
    generation: int)

  const UNWRITTEN := Status("", 0, [], None, 0)

  /** ConsecutiveErrors is a 32-bit counter. */
  function Wrap32(n: int): int { (n + 0x8000_0000) % 0x1_0000_0000 - 0x8000_0000 }

  // ------------------------------------------------------------------------- conditions

  function Find(cs: seq<Condition>, t: CondType): Option<Condition> {
    if cs == [] then None
    else if cs[0].typ == t then Some(cs[0])
    else Find(cs[1..], t)
  }

  /** The first condition of the type, if there is one. */
  lemma {:induction false} FindExact(cs: seq<Condition>, t: CondType)
    ensures Find(cs, t).None? <==> forall i :: 0 <= i < |cs| ==> cs[i].typ != t
    ensures forall i :: 0 <= i < |cs| && cs[i].typ == t && (forall j :: 0 <= j < i ==> cs[j].typ != t) ==>
      Find(cs, t) == Some(cs[i])
  {
    if cs != [] {
      FindExact(cs[1..], t);
      assert forall i :: 0 < i < |cs| ==> cs[1..][i - 1] == cs[i];
    }
  }

  /** Replaces the first condition of the type of `c`, or appends `c`. */
  function Put(cs: seq<Condition>, c: Condition): seq<Condition> {
    if cs == [] then [c]
    else if cs[0].typ == c.typ then [c] + cs[1..]
    else [cs[0]] + Put(cs[1..], c)
  }

  lemma {:induction false} FindPut(cs: seq<Condition>, c: Condition, t: CondType)
    ensures Find(Put(cs, c), t) == if t == c.typ then Some(c) else Find(cs, t)
  {
    if cs != [] && cs[0].typ != c.typ { FindPut(cs[1..], c, t); }
  }

  /** The condition's status becomes `holds`; its transition time moves only if the status does. */
  function Transition(c: Condition, holds: bool, reason: Reason, now: Time): Condition {
    Condition(c.typ, holds, reason, if c.holds == holds then c.since else now)
  }

  function SetCondition(cs: seq<Condition>, t: CondType, holds: bool, reason: Reason, now: Time): seq<Condition> {
    var before := Find(cs, t);
    Put(cs, if before.Some? then Transition(before.value, holds, reason, now) else Condition(t, holds, reason, now))
  }

  /** Carries each transition time over from `prev` when the status did not change. */
  function Kept(c: Condition, prev: seq<Condition>): Condition {
    var p := Find(prev, c.typ);
    if p.Some? && p.value.holds == c.holds then c.(since := p.value.since) else c
  }

  function KeptAll(cs: seq<Condition>, prev: seq<Condition>): seq<Condition> {
    if cs == [] then [] else [Kept(cs[0], prev)] + KeptAll(cs[1..], prev)
  }

  lemma {:induction false} KeptAt(cs: seq<Condition>, prev: seq<Condition>)
    ensures |KeptAll(cs, prev)| == |cs|
    ensures forall i :: 0 <= i < |cs| ==> KeptAll(cs, prev)[i] == Kept(cs[i], prev)
  {
    if cs != [] { KeptAt(cs[1..], prev); }
  }

  method KeepTransitionTimes(conds: array<Condition>, prev: seq<Condition>)
    modifies conds
    ensures conds[..] == KeptAll(old(conds[..]), prev)
  {
    for i := 0 to conds.Length
      invariant forall j :: 0 <= j < i ==> conds[j] == Kept(old(conds[j]), prev)
      invariant forall j :: i <= j < conds.Length ==> conds[j] == old(conds[j])
    {
      var p := Find(prev, conds[i].typ);
      if p.Some? && p.value.holds == conds[i].holds {
        conds[i] := conds[i].(since := p.value.since);
      }
    }
    KeptAt(old(conds[..]), prev);
  }

  lemma {:induction false} FindKept(cs: seq<Condition>, prev: seq<Condition>, t: CondType)
    ensures Find(KeptAll(cs, prev), t) ==
            match Find(cs, t) case None => None case Some(c) => Some(Kept(c, prev))
  {
    if cs != [] {
      FindKept(cs[1..], prev, t);
      assert KeptAll(cs, prev)[1..] == KeptAll(cs[1..], prev);
    }
  }

  // ------------------------------------------------------------------------- the sinks

  datatype Delivery = Delivered(url: string, writeOnly: bool) | Undelivered(writeOnly: bool)

  predicate AnyFailed(results: seq<Delivery>) { exists d :: d in results && d.Undelivered? }

  /** The fan-out: sinks finish in any order, each filling its own place, so the results come back
      in configured order. */
  method EmitToSinks(outcomes: seq<Delivery>) returns (results: seq<Delivery>)
    ensures results == outcomes
  {
    var slots := new Option<Delivery>[|outcomes|](_ => None);
    var running: set<nat> := {};
    for i := 0 to |outcomes|
      invariant forall j: nat :: j in running <==> j < i
    {
      running := running + {i};
    }
    while running != {}
      invariant forall j :: j in running ==> j < |outcomes|
      invariant forall i :: 0 <= i < |outcomes| && i !in running ==> slots[i] == Some(outcomes[i])
      decreases running
    {
      var i :| i in running;
      slots[i] := Some(outcomes[i]);
      running := running - {i};
    }
    results := [];
    for i := 0 to |outcomes|
      invariant results == outcomes[..i]
    {
      results := results + [slots[i].value];
    }
  }

  /** Where a reader finds the document. */
  datatype DocumentRef = Inline | External(index: nat) | Truncated

  predicate Retrieved(d: Delivery, writeOnly: bool) {
    d.Delivered? && d.url != "" && d.writeOnly == writeOnly
  }

  method FirstSuccessful(results: seq<Delivery>, writeOnly: bool) returns (index: Option<nat>)
    ensures index.Some? ==> index.value < |results| && Retrieved(results[index.value], writeOnly)
                            && forall j :: 0 <= j < index.value ==> !Retrieved(results[j], writeOnly)
    ensures index.None? ==> forall j :: 0 <= j < |results| ==> !Retrieved(results[j], writeOnly)
  {
    for i := 0 to |results|
      invariant forall j :: 0 <= j < i ==> !Retrieved(results[j], writeOnly)
    {
      if Retrieved(results[i], writeOnly) {
        return Some(i);
      }
    }
    return None;
  }

  /** A document is inline exactly when it fits; otherwise the reference names the first sink that
      serves it back, a write-only sink only when none does, and it is marked truncated exactly when
      no sink took it. */
  method BuildDocumentRef(size: int, threshold: int, results: seq<Delivery>) returns (ref: DocumentRef)
    ensures ref.Inline? <==> size <= threshold
    ensures ref.External? ==> ref.index < |results| && results[ref.index].Delivered? && results[ref.index].url != ""
    ensures ref.External? && results[ref.index].writeOnly ==> forall j :: 0 <= j < |results| ==>
      !(results[j].Delivered? && results[j].url != "" && !results[j].writeOnly)
    ensures ref.External? ==> forall j :: 0 <= j < ref.index ==>
      !(results[j].Delivered? && results[j].url != "" && results[j].writeOnly == results[ref.index].writeOnly)
    ensures ref.Truncated? <==> size > threshold && forall j :: 0 <= j < |results| ==>
      !(results[j].Delivered? && results[j].url != "")
  {
    if size <= threshold {
      return Inline;
    }
    var serving := FirstSuccessful(results, false);
    if serving.Some? {
      return External(serving.value);
    }
    var writeOnly := FirstSuccessful(results, true);
    if writeOnly.Some? {
      return External(writeOnly.value);
    }
    return Truncated;
  }

  // ------------------------------------------------------------------------- building a status

  function Conditions(results: seq<Delivery>, now: Time): seq<Condition> {
    var down := AnyFailed(results);
    [ Condition(Ready, true, BomGenerated, now),
      Condition(Synced, !down, if down then SinksDown else if results == [] then CrdStatusOnly else AllSinksOk, now),
      Condition(SinkFailed, down, if down then SinksDown else AllSinksOk, now),
      Condition(Stale, false, BomGenerated, now) ]
  }

  const DEFAULT_STALE_THRESHOLD := 3

  function EffectiveThreshold(threshold: int): int {
    if threshold <= 0 then DEFAULT_STALE_THRESHOLD else threshold
  }

  /** Counts this pass's extraction errors and sets or clears Stale. */
  function RecordErrors(s: Status, prev: int, erring: bool, threshold: int, now: Time): Status {
    var stale := Find(s.conditions, Stale);
    if !erring then
      s.(errors := 0,
         conditions := if stale.Some? && stale.value.reason.ErrorsPersistent?
                       then Put(s.conditions, Transition(stale.value, false, BomGenerated, now)) else s.conditions)
    else
      var count := Wrap32(prev + 1);
      s.(errors := count,
         conditions := if count >= EffectiveThreshold(threshold) && stale.Some?
                       then Put(s.conditions, Transition(stale.value, true, ErrorsPersistent, now)) else s.conditions)
  }

  // ------------------------------------------------------------------------- one pass

  datatype Gate = NamespaceGone | NamespaceUnreadable | Excluded | Admitted

  datatype Scrape = ScrapeError | NoSignal | HashError | Inputs(hash: string, errors: seq<string>)

  datatype Write = Landed | Conflict | WriteFailed

  /** Everything outside the reconciler's control in one pass.  `sinks` are the outcomes of
      delivering to each sink of the pass's snapshot. */
  datatype Pass = Pass(
    gate: Gate,
    deletes: bool,
    scrape: Scrape,
    fetches: bool,
    builds: bool,
    refetches: bool,
    sinks: seq<Delivery>,
    creates: bool,
    write: Write,
    threshold: int,
    generation: int,
    now: Time)

  datatype Ending = Done | Requeue | RequeueAfter | Error

  /** What a pass did: nothing that lasts, removal, a recorded failure, or one of the two paths. */
  datatype Entry =
    | Idle
    | Deleted
    | Failed
    | Fast(erring: bool)
    | Full(hash: string, erring: bool, sinks: seq<Delivery>, landed: bool)

  datatype Out = Out(aibom: Option<Status>, result: Ending, entry: Entry)

  function DeletePass(a: Option<Status>, p: Pass): Out {
    if p.deletes then Out(None, Done, Deleted) else Out(a, Error, Idle)
  }

  /** Ready=False on an existing AIBOM; never creates one. */
  function FailurePass(a: Option<Status>, p: Pass, reason: Reason): Out {
    if a.None? || !p.refetches || !p.write.Landed? then Out(a, Error, Idle)
    else
      Out(Some(a.value.(errors := Wrap32(a.value.errors + 1),
                        conditions := SetCondition(a.value.conditions, Ready, false, reason, p.now))),
          Error, Failed)
  }

  function FastStatus(s: Status, p: Pass, erring: bool): Status {
    RecordErrors(s.(lastReconciled := Some(p.now), generation := p.generation), s.errors, erring, p.threshold, p.now)
  }

  function FastPass(s: Status, p: Pass, erring: bool): Out {
    match p.write
    case Landed => Out(Some(FastStatus(s, p, erring)), Done, Fast(erring))
    case Conflict => Out(Some(s), Requeue, Idle)
    case WriteFailed => Out(Some(s), Error, Idle)
  }

  function FullStatus(a: Option<Status>, p: Pass, hash: string, erring: bool): Status {
    var prev := if a.Some? then a.value else UNWRITTEN;
    var blank := if AnyFailed(p.sinks) then "" else hash;
    var built := Status(blank, 0, Conditions(p.sinks, p.now), Some(p.now), p.generation);
    var counted := RecordErrors(built, prev.errors, erring, p.threshold, p.now);
    counted.(conditions := KeptAll(counted.conditions, prev.conditions))
  }

  function FullPass(a: Option<Status>, p: Pass, hash: string, erring: bool): Out {
    if !p.creates then Out(a, Error, Full(hash, erring, p.sinks, false))
    else
      var created := if a.Some? then a else Some(UNWRITTEN);
      match p.write
      case Landed =>
        Out(Some(FullStatus(a, p, hash, erring)), if AnyFailed(p.sinks) then RequeueAfter else Done,
            Full(hash, erring, p.sinks, true))
      case Conflict => Out(created, Requeue, Full(hash, erring, p.sinks, false))
      case WriteFailed => Out(created, Error, Full(hash, erring, p.sinks, false))
  }

  predicate Unchanged(a: Option<Status>, hash: string) {
    a.Some? && a.value.inputHash != "" && a.value.inputHash == hash
  }

  function ReconcilePass(a: Option<Status>, p: Pass): Out {
    match p.gate
    case NamespaceGone => Out(a, Done, Idle)
    case NamespaceUnreadable => Out(a, Error, Idle)
    case Excluded => DeletePass(a, p)
    case Admitted =>
      match p.scrape
      case ScrapeError => FailurePass(a, p, ScrapeFailed)
      case NoSignal => DeletePass(a, p)
      case HashError => Out(a, Error, Idle)
      case Inputs(hash, errs) =>
        if !p.fetches then Out(a, Error, Idle)
        else if Unchanged(a, hash) then FastPass(a.value, p, errs != [])
        else if a.Some? && a.value.lastReconciled.None? then Out(a, RequeueAfter, Idle)
        else if !p.builds then FailurePass(a, p, BuildFailed)
        else FullPass(a, p, hash, errs != [])
  }

  /** The reconciler of one workload against the API server's AIBOM. */
  class WorkloadReconciler {
    var aibom: Option<Status>
    var log: seq<Entry>

    constructor ()
      ensures aibom == None && log == []
    {
      aibom, log := None, [];
    }

    method PersistFailure(p: Pass, reason: Reason)
      modifies this
      ensures
        var out := FailurePass(old(aibom), p, reason);
        aibom == out.aibom && log == old(log) + [out.entry]
    {
      if aibom == None || !p.refetches || p.write != Landed {
        log := log + [Idle];
        return;
      }
      var s := aibom.value;
      var conds := SetCondition(s.conditions, Ready, false, reason, p.now);
      aibom := Some(s.(errors := Wrap32(s.errors + 1), conditions := conds));
      log := log + [Failed];
    }

    /** Emits to every sink, then creates or updates the AIBOM and writes its status. */
    method Publish(p: Pass, hash: string, erring: bool) returns (result: Ending)
      modifies this
      ensures
        var out := FullPass(old(aibom), p, hash, erring);
        aibom == out.aibom && result == out.result && log == old(log) + [out.entry]
    {
      var results := EmitToSinks(p.sinks);
      var status := FullStatus(aibom, p, hash, erring);
      var landed := p.creates && p.write == Landed;
      log := log + [Full(hash, erring, results, landed)];
      if !p.creates {
        return Error;
      }
      if aibom == None {
        aibom := Some(UNWRITTEN);
      }
      if p.write != Landed {
        return if p.write == Conflict then Requeue else Error;
      }
      aibom := Some(status);
      return if AnyFailed(results) then RequeueAfter else Done;
    }

    method Reconcile(p: Pass) returns (result: Ending)
      modifies this
      ensures
        var out := ReconcilePass(old(aibom), p);
        aibom == out.aibom && result == out.result && log == old(log) + [out.entry]
    {
      if p.gate == NamespaceGone {
        log := log + [Idle];
        return Done;
      }
      if p.gate == NamespaceUnreadable {
        log := log + [Idle];
        return Error;
      }
      if p.gate == Excluded || p.scrape == NoSignal {
        if !p.deletes {
          log := log + [Idle];
          return Error;
        }
        aibom, log := None, log + [Deleted];
        return Done;
      }
      match p.scrape {
        case ScrapeError =>
          PersistFailure(p, ScrapeFailed);
          return Error;
        case HashError =>
          log := log + [Idle];
          return Error;
        case Inputs(hash, errs) =>
          if !p.fetches {
            log := log + [Idle];
            return Error;
          }
          if aibom.Some? {
            if aibom.value.inputHash != "" && aibom.value.inputHash == hash {
              var updated := FastStatus(aibom.value, p, |errs| != 0);
              if p.write != Landed {
                log := log + [Idle];
                return if p.write == Conflict then Requeue else Error;
              }
              aibom, log := Some(updated), log + [Fast(|errs| != 0)];
              return Done;
            }
            if aibom.value.lastReconciled == None {
              log := log + [Idle];
              return RequeueAfter;
            }
          }
          if !p.builds {
            PersistFailure(p, BuildFailed);
            return Error;
          }
          result := Publish(p, hash, |errs| != 0);
      }
    }
  }

  // ------------------------------------------------------------------------- runs

  /** The persisted AIBOM and the log after a run from a workload without an AIBOM. */
  datatype Run = Run(aibom: Option<Status>, log: seq<Entry>)

  function Play(passes: seq<Pass>): (r: Run)
    ensures |r.log| == |passes|
  {
    if passes == [] then Run(None, [])
    else
      var before := Play(passes[..|passes| - 1]);
      var out := ReconcilePass(before.aibom, passes[|passes| - 1]);
      Run(out.aibom, before.log + [out.entry])
  }

  /** A pass that emitted and delivered to every sink of its snapshot. */
  predicate DeliveredEverywhere(e: Entry, hash: string) {
    e.Full? && e.hash == hash && forall i :: 0 <= i < |e.sinks| ==> e.sinks[i].Delivered?
  }

  /** A pass leaves the persisted hash alone, blanks it, or is a full pass that delivered. */
  lemma HashSource(a: Option<Status>, p: Pass)
    ensures
      var out := ReconcilePass(a, p);
      out.aibom.Some? && out.aibom.value.inputHash != "" ==>
        || (a.Some? && a.value.inputHash == out.aibom.value.inputHash)
        || DeliveredEverywhere(out.entry, out.aibom.value.inputHash)
  {
  }

  /** Over every run, whatever fails: a non-empty persisted input hash means an earlier pass with
      that hash delivered its document to every sink of that pass's snapshot. */
  lemma {:induction false} HashMeansDelivered(passes: seq<Pass>)
    ensures
      var r := Play(passes);
      r.aibom.Some? && r.aibom.value.inputHash != "" ==>
        exists e :: e in r.log && DeliveredEverywhere(e, r.aibom.value.inputHash)
  {
    if passes != [] {
      var init, p := passes[..|passes| - 1], passes[|passes| - 1];
      HashMeansDelivered(init);
      var before, r := Play(init), Play(passes);
      if r.aibom.Some? && r.aibom.value.inputHash != "" {
        HashSource(before.aibom, p);
        var e :| e in r.log && DeliveredEverywhere(e, r.aibom.value.inputHash);
      }
    }
  }

  /** The hash of the last full pass whose status was written, if it delivered to every sink. */
  function Published(log: seq<Entry>): string {
    if log == [] then ""
    else match log[|log| - 1]
      case Deleted => ""
      case Full(hash, _, sinks, true) => if AnyFailed(sinks) then "" else hash
      case _ => Published(log[..|log| - 1])
  }

  /** The sinks and hash logged by a full pass are those of the pass. */
  lemma PassSinks(a: Option<Status>, p: Pass)
    ensures
      var out := ReconcilePass(a, p);
      out.entry.Full? ==> out.entry.sinks == p.sinks && p.scrape.Inputs? && out.entry.hash == p.scrape.hash
  {
  }

  /** The persisted status after a pass, by what the pass did. */
  lemma PassCases(a: Option<Status>, p: Pass)
    ensures
      var out := ReconcilePass(a, p);
      match out.entry
      case Deleted => out.aibom.None?
      case Failed =>
        a.Some? && (out == FailurePass(a, p, ScrapeFailed) || out == FailurePass(a, p, BuildFailed))
      case Fast(erring) => a.Some? && out.aibom == Some(FastStatus(a.value, p, erring))
      case Full(hash, erring, _, true) => out.aibom == Some(FullStatus(a, p, hash, erring))
      case _ => out.aibom == a || (a.None? && out.aibom == Some(UNWRITTEN))
  {
  }

  /** Over every run the persisted hash is exactly that one: no fast or failure pass moves it, and
      a later pass with a failed sink withdraws it. */
  lemma {:induction false} HashExact(passes: seq<Pass>)
    ensures
      var r := Play(passes);
      Published(r.log) == if r.aibom.Some? then r.aibom.value.inputHash else ""
  {
    if passes != [] {
      var init, p := passes[..|passes| - 1], passes[|passes| - 1];
      HashExact(init);
      var before, r := Play(init), Play(passes);
      assert r.log[..|r.log| - 1] == before.log;
      PassCases(before.aibom, p);
      PassSinks(before.aibom, p);
    }
  }

  /** A pass with a failed sink never persists the hash it computed, so the next pass with the same
      inputs emits again, and it ends in a requeue or an error. */
  lemma FailedSinkRetries(a: Option<Status>, p: Pass)
    requires exists i :: 0 <= i < |p.sinks| && p.sinks[i].Undelivered?
    ensures
      var out := ReconcilePass(a, p);
      out.entry.Full? ==>
        && !out.result.Done?
        && (out.entry.landed ==> out.aibom.Some? && out.aibom.value.inputHash == "")
        && (out.aibom.Some? ==> out.aibom.value.inputHash == "" || out.aibom.value.inputHash != out.entry.hash)
  {
    PassSinks(a, p);
  }

  /** The inputs were read, and what was last published has another hash, or none. */
  ghost predicate NewInputs(a: Option<Status>, p: Pass) {
    && p.gate.Admitted? && p.scrape.Inputs? && p.fetches
    && (a.Some? ==> a.value.inputHash == "" || a.value.inputHash != p.scrape.hash)
  }

  ghost predicate SameInputs(a: Option<Status>, p: Pass) {
    && p.gate.Admitted? && p.scrape.Inputs? && p.fetches
    && a.Some? && a.value.inputHash != "" && a.value.inputHash == p.scrape.hash
  }

  /** What a pass does, exactly.  It emits if and only if it was admitted and read, the persisted hash
      is not that of its inputs, the AIBOM is not waiting for its first status, and the document was
      built. */
  lemma EmitsExactly(a: Option<Status>, p: Pass)
    ensures
      var e := ReconcilePass(a, p).entry;
      && (e.Full? <==> NewInputs(a, p) && (a.Some? ==> a.value.lastReconciled.Some?) && p.builds)
      && (e.Full? ==> e.hash == p.scrape.hash && e.sinks == p.sinks && (e.erring <==> p.scrape.errors != []))
      && (e.Full? ==> (e.landed <==> p.creates && p.write.Landed?))
      && (e.Fast? <==> SameInputs(a, p) && p.write.Landed?)
      && (e.Fast? ==> (e.erring <==> p.scrape.errors != []))
      && (e.Deleted? <==> (p.gate.Excluded? || (p.gate.Admitted? && p.scrape.NoSignal?)) && p.deletes)
      && (e.Failed? <==>
            && p.gate.Admitted? && a.Some? && p.refetches && p.write.Landed?
            && (p.scrape.ScrapeError? || (NewInputs(a, p) && a.value.lastReconciled.Some? && !p.builds)))
  {
  }

  /** Over every run: with an AIBOM whose status was written, a pass that is admitted, reads its inputs
      and builds emits if and only if its hash is not the one last published. */
  lemma EmitsWhenUnpublished(passes: seq<Pass>, p: Pass)
    requires p.gate.Admitted? && p.scrape.Inputs? && p.fetches && p.builds
    requires Play(passes).aibom.Some? ==> Play(passes).aibom.value.lastReconciled.Some?
    ensures
      var r := Play(passes);
      ReconcilePass(r.aibom, p).entry.Full? <==> Published(r.log) == "" || Published(r.log) != p.scrape.hash
  {
    HashExact(passes);
    EmitsExactly(Play(passes).aibom, p);
  }

  /** How a pass ends, exactly. */
  lemma EndsExactly(a: Option<Status>, p: Pass)
    ensures
      var out := ReconcilePass(a, p);
      var e, delivered := out.entry, forall i :: 0 <= i < |p.sinks| ==> p.sinks[i].Delivered?;
      var full := NewInputs(a, p) && (a.Some? ==> a.value.lastReconciled.Some?) && p.builds && p.creates;
      && (out.result.Done? <==> p.gate.NamespaceGone? || e.Deleted? || e.Fast? || (e.Full? && e.landed && delivered))
      && (out.result.RequeueAfter? <==>
            || (e.Full? && e.landed && !delivered)
            || (NewInputs(a, p) && a.Some? && a.value.lastReconciled.None?))
      && (out.result.Requeue? <==> p.write.Conflict? && (SameInputs(a, p) || full))
  {
    EmitsExactly(a, p);
  }

  /** Only a pass that writes a status stamps it, with its time and the workload's generation. */
  lemma StampedExactly(a: Option<Status>, p: Pass)
    ensures
      var out := ReconcilePass(a, p);
      if out.entry.Fast? || (out.entry.Full? && out.entry.landed)
      then out.aibom.Some? && out.aibom.value.lastReconciled == Some(p.now) &&
        out.aibom.value.generation == p.generation
      else a.Some? && out.aibom.Some? ==>
             out.aibom.value.lastReconciled == a.value.lastReconciled &&
               out.aibom.value.generation == a.value.generation
  {
    PassCases(a, p);
  }

  // ------------------------------------------------------------------------- the bootstrap deferral

  /** An AIBOM that waits for its first status. */
  predicate AwaitsStatus(a: Option<Status>) { a.Some? && a.value.lastReconciled.None? }

  /** The wait begins exactly with a first full pass that creates the AIBOM and loses its status
      write. */
  lemma DeferralBegins(p: Pass)
    ensures
      var out := ReconcilePass(None, p);
      AwaitsStatus(out.aibom) <==> out.entry.Full? && p.creates && !out.entry.landed
  {
  }

  /** A pass on a waiting AIBOM emits nothing, takes no fast path and leaves it waiting, unless it
      deletes it. */
  lemma DeferredPass(a: Option<Status>, p: Pass)
    requires AwaitsStatus(a) && a.value.inputHash == ""
    ensures
      var out := ReconcilePass(a, p);
      out.entry.Deleted? || ((out.entry.Idle? || out.entry.Failed?) && AwaitsStatus(out.aibom) &&
        out.aibom.value.inputHash == "")
  {
  }

  lemma {:induction false} WaitingIsUnpublished(passes: seq<Pass>)
    ensures AwaitsStatus(Play(passes).aibom) ==> Play(passes).aibom.value.inputHash == ""
  {
    if passes != [] {
      WaitingIsUnpublished(passes[..|passes| - 1]);
      PassCases(Play(passes[..|passes| - 1]).aibom, passes[|passes| - 1]);
    }
  }

  /** The deferral does not end: in every continuation, whatever the passes bring, the workload stays
      deferred until a pass deletes its AIBOM. */
  lemma {:induction false} DeferredForGood(passes: seq<Pass>, more: seq<Pass>)
    requires AwaitsStatus(Play(passes).aibom)
    requires forall e :: e in Play(passes + more).log[|passes|..] ==> !e.Deleted?
    ensures AwaitsStatus(Play(passes + more).aibom)
    ensures forall e :: e in Play(passes + more).log[|passes|..] ==> e.Idle? || e.Failed?
    decreases more
  {
    var all := passes + more;
    if more == [] {
      assert all == passes;
    } else {
      var init := more[..|more| - 1];
      var before, r := Play(passes + init), Play(all);
      assert all[..|all| - 1] == passes + init;
      var e := r.log[|all| - 1];
      assert r.log[|passes|..] == before.log[|passes|..] + [e];
      DeferredForGood(passes, init);
      WaitingIsUnpublished(passes + init);
      DeferredPass(before.aibom, all[|all| - 1]);
    }
  }

  // ------------------------------------------------------------------------- transition times

  /** For conditions present before and after: the time moves, to the time of the pass, exactly
      when the status does. */
  ghost predicate TimesFollow(before: seq<Condition>, after: seq<Condition>, now: Time) {
    forall t :: Find(before, t).Some? && Find(after, t).Some? ==>
      var b, c := Find(before, t).value, Find(after, t).value;
      c.since == if b.holds == c.holds then b.since else now
  }

  lemma PutTimes(cs: seq<Condition>, c: Condition, now: Time)
    requires Find(cs, c.typ).Some? ==>
      c.since == if Find(cs, c.typ).value.holds == c.holds then Find(cs, c.typ).value.since else now
    ensures TimesFollow(cs, Put(cs, c), now)
  {
    forall t | Find(cs, t).Some?
      ensures Find(Put(cs, c), t) == if t == c.typ then Some(c) else Find(cs, t)
    {
      FindPut(cs, c, t);
    }
  }

  lemma {:induction false} FindHasType(cs: seq<Condition>, t: CondType)
    ensures Find(cs, t).Some? ==> Find(cs, t).value.typ == t
  {
    if cs != [] { FindHasType(cs[1..], t); }
  }

  lemma RecordTimes(s: Status, prev: int, erring: bool, threshold: int, now: Time)
    ensures TimesFollow(s.conditions, RecordErrors(s, prev, erring, threshold, now).conditions, now)
  {
    var stale := Find(s.conditions, Stale);
    if stale.Some? {
      var off := Transition(stale.value, false, BomGenerated, now);
      var on := Transition(stale.value, true, ErrorsPersistent, now);
      FindHasType(s.conditions, Stale);
      PutTimes(s.conditions, off, now);
      PutTimes(s.conditions, on, now);
    }
  }

  /** Recording on a status built in this pass leaves every time at the time of the pass. */
  lemma RecordNow(s: Status, prev: int, erring: bool, threshold: int, now: Time, t: CondType)
    requires forall u :: Find(s.conditions, u).Some? ==> Find(s.conditions, u).value.since == now
    ensures
      var c := Find(RecordErrors(s, prev, erring, threshold, now).conditions, t);
      c.Some? ==> c.value.since == now
  {
    var stale := Find(s.conditions, Stale);
    if stale.Some? {
      FindHasType(s.conditions, Stale);
      FindPut(s.conditions, Transition(stale.value, false, BomGenerated, now), t);
      FindPut(s.conditions, Transition(stale.value, true, ErrorsPersistent, now), t);
    }
  }

  lemma {:induction false} FindIn(cs: seq<Condition>, t: CondType)
    ensures Find(cs, t).Some? ==> Find(cs, t).value in cs
  {
    if cs != [] { FindIn(cs[1..], t); }
  }

  lemma FreshTimes(results: seq<Delivery>, now: Time)
    ensures forall t :: Find(Conditions(results, now), t).Some? ==> Find(Conditions(results, now), t).value.since == now
  {
    var cs := Conditions(results, now);
    forall t {
      FindIn(cs, t);
    }
  }

  lemma FullTimes(a: Option<Status>, p: Pass, hash: string, erring: bool)
    requires a.Some?
    ensures TimesFollow(a.value.conditions, FullStatus(a, p, hash, erring).conditions, p.now)
  {
    var blank := if AnyFailed(p.sinks) then "" else hash;
    var built := Status(blank, 0, Conditions(p.sinks, p.now), Some(p.now), p.generation);
    FreshTimes(p.sinks, p.now);
    var counted := RecordErrors(built, a.value.errors, erring, p.threshold, p.now);
    forall t
      ensures Find(KeptAll(counted.conditions, a.value.conditions), t) ==
              match Find(counted.conditions, t) case None => None case Some(c) => Some(Kept(c, a.value.conditions))
      ensures Find(counted.conditions, t).Some? ==> Find(counted.conditions, t).value.since == p.now
      ensures Find(counted.conditions, t).Some? ==> Find(counted.conditions, t).value.typ == t
    {
      RecordNow(built, a.value.errors, erring, p.threshold, p.now, t);
      FindKept(counted.conditions, a.value.conditions, t);
      FindHasType(counted.conditions, t);
    }
  }

  lemma FailureTimes(cs: seq<Condition>, reason: Reason, now: Time)
    ensures TimesFollow(cs, SetCondition(cs, Ready, false, reason, now), now)
  {
    var b := Find(cs, Ready);
    FindHasType(cs, Ready);
    var c := if b.Some? then Transition(b.value, false, reason, now) else Condition(Ready, false, reason, now);
    PutTimes(cs, c, now);
  }

  /** Over every pass of every kind: a condition's transition time moves exactly when its status
      does. */
  lemma TransitionTimesExact(a: Option<Status>, p: Pass)
    requires a.Some? && ReconcilePass(a, p).aibom.Some?
    ensures TimesFollow(a.value.conditions, ReconcilePass(a, p).aibom.value.conditions, p.now)
  {
    var s, after := a.value, ReconcilePass(a, p).aibom.value;
    PassCases(a, p);
    match ReconcilePass(a, p).entry
    case Failed =>
      FailureTimes(s.conditions, ScrapeFailed, p.now);
      FailureTimes(s.conditions, BuildFailed, p.now);
    case Fast(erring) =>
      RecordTimes(s.(lastReconciled := Some(p.now), generation := p.generation), s.errors, erring, p.threshold, p.now);
    case Full(hash, erring, _, true) => FullTimes(a, p, hash, erring);
    case _ =>
  }

  // ------------------------------------------------------------------------- error counting

  /** Length of the trailing run of erring passes whose status was written, since the AIBOM was
      created. */
  function Trailing(log: seq<Entry>): nat {
    if log == [] then 0
    else
      var before := Trailing(log[..|log| - 1]);
      match log[|log| - 1]
      case Idle => before
      case Deleted => 0
      case Failed => before + 1
      case Fast(erring) => if erring then before + 1 else 0
      case Full(_, erring, _, landed) => if !landed then before else if erring then before + 1 else 0
  }

  lemma TrailingAppend(log: seq<Entry>, e: Entry)
    ensures Trailing(log + [e]) ==
      match e
      case Idle => Trailing(log)
      case Deleted => 0
      case Failed => Trailing(log) + 1
      case Fast(erring) => if erring then Trailing(log) + 1 else 0
      case Full(_, erring, _, landed) => if !landed then Trailing(log) else if erring then Trailing(log) + 1 else 0
  {
    assert (log + [e])[..|log|] == log;
  }

  /** Stale is set only for persistent extraction errors, after at least `threshold` erring passes. */
  ghost predicate StaleJustified(cs: seq<Condition>, trailing: nat, threshold: int) {
    Find(cs, Stale).Some? ==>
      && (Find(cs, Stale).value.holds <==> Find(cs, Stale).value.reason.ErrorsPersistent?)
      && (Find(cs, Stale).value.holds ==> trailing >= threshold)
  }

  ghost predicate Counting(r: Run, threshold: int) {
    && (r.aibom.None? ==> Trailing(r.log) == 0)
    && (r.aibom.Some? ==> r.aibom.value.errors == Wrap32(Trailing(r.log)))
    && (r.aibom.Some? ==> StaleJustified(r.aibom.value.conditions, Trailing(r.log), threshold))
  }

  lemma Wrap32Step(n: nat)
    ensures Wrap32(Wrap32(n) + 1) == Wrap32(n + 1) && Wrap32(n) <= n && Wrap32(0) == 0
    ensures n < 0x8000_0000 ==> Wrap32(n) == n
  {
  }

  lemma RecordCounts(s: Status, trailing: nat, erring: bool, threshold: int, now: Time)
    requires StaleJustified(s.conditions, trailing, EffectiveThreshold(threshold))
    ensures
      var s' := RecordErrors(s, Wrap32(trailing), erring, threshold, now);
      var trailing' := if erring then trailing + 1 else 0;
      s'.errors == Wrap32(trailing') && StaleJustified(s'.conditions, trailing', EffectiveThreshold(threshold))
  {
    Wrap32Step(trailing);
    Wrap32Step(trailing + 1);
    var stale := Find(s.conditions, Stale);
    if stale.Some? {
      FindHasType(s.conditions, Stale);
      FindPut(s.conditions, Transition(stale.value, false, BomGenerated, now), Stale);
      FindPut(s.conditions, Transition(stale.value, true, ErrorsPersistent, now), Stale);
    }
  }

  lemma FailureKeepsStale(cs: seq<Condition>, reason: Reason, now: Time)
    ensures Find(SetCondition(cs, Ready, false, reason, now), Stale) == Find(cs, Stale)
    ensures
      var c := Find(SetCondition(cs, Ready, false, reason, now), Ready);
      c.Some? && !c.value.holds
  {
    var b := Find(cs, Ready);
    FindHasType(cs, Ready);
    var c := if b.Some? then Transition(b.value, false, reason, now) else Condition(Ready, false, reason, now);
    FindPut(cs, c, Stale);
    FindPut(cs, c, Ready);
  }

  lemma FreshStale(results: seq<Delivery>, now: Time)
    ensures Find(Conditions(results, now), Stale) == Some(Condition(Stale, false, BomGenerated, now))
    ensures Find(Conditions(results, now), Ready) == Some(Condition(Ready, true, BomGenerated, now))
  {
    var cs := Conditions(results, now);
    assert cs[1..][1..] == cs[2..] && cs[2..][1..] == cs[3..];
    assert Find(cs[3..], Stale) == Some(cs[3]);
    assert Find(cs[2..], Stale) == Find(cs[3..], Stale);
    assert Find(cs[1..], Stale) == Find(cs[2..], Stale);
  }

  lemma FullCounts(a: Option<Status>, n: nat, p: Pass, hash: string, erring: bool)
    requires (if a.Some? then a.value.errors else 0) == Wrap32(n)
    ensures
      var s := FullStatus(a, p, hash, erring);
      var n' := if erring then n + 1 else 0;
      s.errors == Wrap32(n') && StaleJustified(s.conditions, n', EffectiveThreshold(p.threshold))
  {
    var prev := if a.Some? then a.value else UNWRITTEN;
    var blank := if AnyFailed(p.sinks) then "" else hash;
    var built := Status(blank, 0, Conditions(p.sinks, p.now), Some(p.now), p.generation);
    assert Find(built.conditions, Stale) == Some(Condition(Stale, false, BomGenerated, p.now)) by {
      FreshStale(p.sinks, p.now);
    }
    RecordCounts(built, n, erring, p.threshold, p.now);
    FindKept(RecordErrors(built, Wrap32(n), erring, p.threshold, p.now).conditions, prev.conditions, Stale);
  }

  lemma PassCounts(before: Run, p: Pass)
    requires Counting(before, EffectiveThreshold(p.threshold))
    ensures
      var out := ReconcilePass(before.aibom, p);
      Counting(Run(out.aibom, before.log + [out.entry]), EffectiveThreshold(p.threshold))
  {
    var a, n := before.aibom, Trailing(before.log);
    var out := ReconcilePass(a, p);
    TrailingAppend(before.log, out.entry);
    Wrap32Step(n);
    PassCases(a, p);
    match out.entry
    case Failed =>
      FailureKeepsStale(a.value.conditions, ScrapeFailed, p.now);
      FailureKeepsStale(a.value.conditions, BuildFailed, p.now);
    case Fast(erring) =>
      RecordCounts(a.value.(lastReconciled := Some(p.now), generation := p.generation), n, erring, p.threshold, p.now);
    case Full(hash, erring, _, true) => FullCounts(a, n, p, hash, erring);
    case _ =>
  }

  /** Over every run mixing full, fast and failure passes, with a fixed threshold: ConsecutiveErrors
      is the length of the trailing run of erring passes (as a 32-bit number), and Stale=True implies
      that the run is at least as long as the threshold. */
  lemma {:induction false} ErrorsCounted(passes: seq<Pass>, threshold: int)
    requires forall p :: p in passes ==> p.threshold == threshold
    ensures Counting(Play(passes), EffectiveThreshold(threshold))
  {
    if passes != [] {
      ErrorsCounted(passes[..|passes| - 1], threshold);
      PassCounts(Play(passes[..|passes| - 1]), passes[|passes| - 1]);
    } else {
      Wrap32Step(0);
    }
  }

  // ------------------------------------------------------------------------- Stale, exactly

  /** Whether Stale holds, read off the log: a written pass without errors clears it, one with errors
      sets it once the count has reached the threshold, and a full pass starts from False. */
  function StaleOf(log: seq<Entry>, threshold: int): bool {
    log != [] &&
    var init := log[..|log| - 1];
    var reached := Wrap32(Trailing(log)) >= (if threshold <= 0 then 3 else threshold);
    match log[|log| - 1]
    case Deleted => false
    case Fast(erring) => erring && (reached || StaleOf(init, threshold))
    case Full(_, erring, _, true) => erring && reached
    case _ => StaleOf(init, threshold)
  }

  lemma StaleOfAppend(log: seq<Entry>, e: Entry, threshold: int)
    ensures
      var reached := Wrap32(Trailing(log + [e])) >= (if threshold <= 0 then 3 else threshold);
      StaleOf(log + [e], threshold) ==
      match e
      case Deleted => false
      case Fast(erring) => erring && (reached || StaleOf(log, threshold))
      case Full(_, erring, _, true) => erring && reached
      case _ => StaleOf(log, threshold)
  {
    assert (log + [e])[..|log|] == log;
  }

  ghost predicate StaleTracked(r: Run, threshold: int) {
    if r.aibom.None? then !StaleOf(r.log, threshold)
    else match Find(r.aibom.value.conditions, Stale)
      case None => !StaleOf(r.log, threshold) && r.aibom.value.inputHash == ""
      case Some(c) =>
        (c.holds <==> StaleOf(r.log, threshold)) && (c.holds <==> c.reason.ErrorsPersistent?)
  }

  /** Recording errors on a status that has the condition: set, kept or cleared. */
  lemma RecordStale(s: Status, prev: int, erring: bool, threshold: int, now: Time)
    requires Find(s.conditions, Stale).Some?
    requires Find(s.conditions, Stale).value.holds <==> Find(s.conditions, Stale).value.reason.ErrorsPersistent?
    ensures
      var before, c := Find(s.conditions, Stale).value,
        Find(RecordErrors(s, prev, erring, threshold, now).conditions, Stale);
      var reached := Wrap32(prev + 1) >= (if threshold <= 0 then 3 else threshold);
      && c.Some? && (c.value.holds <==> erring && (reached || before.holds))
      && (c.value.holds <==> c.value.reason.ErrorsPersistent?)
  {
    var stale := Find(s.conditions, Stale);
    FindHasType(s.conditions, Stale);
    FindPut(s.conditions, Transition(stale.value, false, BomGenerated, now), Stale);
    FindPut(s.conditions, Transition(stale.value, true, ErrorsPersistent, now), Stale);
  }

  lemma FullStale(a: Option<Status>, p: Pass, hash: string, erring: bool)
    ensures
      var prev := if a.Some? then a.value.errors else 0;
      var c := Find(FullStatus(a, p, hash, erring).conditions, Stale);
      && c.Some? && (c.value.holds <==> erring && Wrap32(prev + 1) >= (if p.threshold <= 0 then 3 else p.threshold))
      && (c.value.holds <==> c.value.reason.ErrorsPersistent?)
  {
    var prev := if a.Some? then a.value else UNWRITTEN;
    var blank := if AnyFailed(p.sinks) then "" else hash;
    var built := Status(blank, 0, Conditions(p.sinks, p.now), Some(p.now), p.generation);
    FreshStale(p.sinks, p.now);
    RecordStale(built, prev.errors, erring, p.threshold, p.now);
    FindKept(RecordErrors(built, prev.errors, erring, p.threshold, p.now).conditions, prev.conditions, Stale);
  }

  /** A failure touches no condition but Ready. */
  lemma FailureOthers(cs: seq<Condition>, reason: Reason, now: Time, t: CondType)
    requires t != Ready
    ensures Find(SetCondition(cs, Ready, false, reason, now), t) == Find(cs, t)
  {
    var b := Find(cs, Ready);
    FindHasType(cs, Ready);
    FindPut(cs, if b.Some? then Transition(b.value, false, reason, now) else Condition(Ready, false, reason, now), t);
  }

  lemma PassStale(before: Run, p: Pass)
    requires StaleTracked(before, p.threshold)
    requires before.aibom.Some? ==> before.aibom.value.errors == Wrap32(Trailing(before.log))
    requires before.aibom.None? ==> Trailing(before.log) == 0
    ensures
      var out := ReconcilePass(before.aibom, p);
      StaleTracked(Run(out.aibom, before.log + [out.entry]), p.threshold)
  {
    var a, n := before.aibom, Trailing(before.log);
    var out := ReconcilePass(a, p);
    StaleOfAppend(before.log, out.entry, p.threshold);
    TrailingAppend(before.log, out.entry);
    Wrap32Step(n);
    PassCases(a, p);
    match out.entry
    case Failed =>
      FailureOthers(a.value.conditions, ScrapeFailed, p.now, Stale);
      FailureOthers(a.value.conditions, BuildFailed, p.now, Stale);
    case Fast(erring) =>
      RecordStale(a.value.(lastReconciled := Some(p.now), generation := p.generation), a.value.errors, erring,
        p.threshold, p.now);
    case Full(hash, erring, _, true) => FullStale(a, p, hash, erring);
    case _ =>
  }

  /** Over every run with a fixed threshold, Stale is exactly what the log says. */
  lemma {:induction false} StaleExact(passes: seq<Pass>, threshold: int)
    requires forall p :: p in passes ==> p.threshold == threshold
    ensures StaleTracked(Play(passes), threshold)
  {
    if passes != [] {
      var init := passes[..|passes| - 1];
      StaleExact(init, threshold);
      ErrorsCounted(init, threshold);
      PassStale(Play(init), passes[|passes| - 1]);
    }
  }

  /** Entry `j` is the last one that wrote a status other than a failure, since the AIBOM was created. */
  ghost predicate LastWritten(log: seq<Entry>, j: nat) {
    && j < |log| && (log[j].Fast? || (log[j].Full? && log[j].landed))
    && forall i :: j < i < |log| ==> log[i].Idle? || log[i].Failed? || (log[i].Full? && !log[i].landed)
  }

  lemma {:induction false} TrailingBounded(log: seq<Entry>)
    ensures Trailing(log) <= |log|
  {
    if log != [] { TrailingBounded(log[..|log| - 1]); }
  }

  /** Stale implies a trailing run of errors as long as the threshold. */
  lemma {:induction false} StaleNeedsErrors(log: seq<Entry>, threshold: int)
    requires StaleOf(log, threshold)
    ensures Trailing(log) >= (if threshold <= 0 then 3 else threshold)
  {
    var init := log[..|log| - 1];
    Wrap32Step(Trailing(log));
    if StaleOf(init, threshold) { StaleNeedsErrors(init, threshold); }
  }

  /** In every run of fewer than 2^31 passes, Stale holds if and only if the last written pass erred
      and the trailing run of errors had then reached the threshold. */
  lemma {:induction false} StaleMeans(log: seq<Entry>, threshold: int, j: nat)
    requires LastWritten(log, j) && |log| < 0x8000_0000
    ensures StaleOf(log, threshold) <==>
            log[j].erring && Trailing(log[..j + 1]) >= (if threshold <= 0 then 3 else threshold)
  {
    var init := log[..|log| - 1];
    if j < |log| - 1 {
      assert init[..j + 1] == log[..j + 1] && init[j] == log[j];
      StaleMeans(init, threshold, j);
    } else {
      assert log[..j + 1] == log;
      TrailingBounded(log);
      Wrap32Step(Trailing(log));
      if log[j].Fast? && log[j].erring && StaleOf(init, threshold) {
        StaleNeedsErrors(init, threshold);
      }
    }
  }

  // ------------------------------------------------------------------------- the sinks' conditions

  /** The deliveries of the last written full pass since the AIBOM was created. */
  function LastSinks(log: seq<Entry>): Option<seq<Delivery>> {
    if log == [] then None
    else match log[|log| - 1]
      case Deleted => None
      case Full(_, _, sinks, true) => Some(sinks)
      case _ => LastSinks(log[..|log| - 1])
  }

  /** SinkFailed says that some sink failed, Synced that none did. */
  ghost predicate SinksTold(cs: seq<Condition>, sinks: Option<seq<Delivery>>) {
    match sinks
    case None => Find(cs, SinkFailed).None? && Find(cs, Synced).None?
    case Some(ds) =>
      && Find(cs, SinkFailed).Some? && Find(cs, Synced).Some?
      && (Find(cs, SinkFailed).value.holds <==> exists i :: 0 <= i < |ds| && ds[i].Undelivered?)
      && (Find(cs, Synced).value.holds <==> forall i :: 0 <= i < |ds| ==> ds[i].Delivered?)
  }

  /** Recording errors touches no condition but Stale. */
  lemma RecordOthers(s: Status, prev: int, erring: bool, threshold: int, now: Time, t: CondType)
    requires t != Stale
    ensures Find(RecordErrors(s, prev, erring, threshold, now).conditions, t) == Find(s.conditions, t)
  {
    var stale := Find(s.conditions, Stale);
    if stale.Some? {
      FindHasType(s.conditions, Stale);
      FindPut(s.conditions, Transition(stale.value, false, BomGenerated, now), t);
      FindPut(s.conditions, Transition(stale.value, true, ErrorsPersistent, now), t);
    }
  }

  lemma FreshSinks(results: seq<Delivery>, now: Time)
    ensures SinksTold(Conditions(results, now), Some(results))
  {
    var cs := Conditions(results, now);
    FindExact(cs, SinkFailed);
    FindExact(cs, Synced);
    assert Find(cs, Synced) == Some(cs[1]) && Find(cs, SinkFailed) == Some(cs[2]);
    assert forall i :: 0 <= i < |results| ==> results[i] in results;
  }

  lemma FullSinks(a: Option<Status>, p: Pass, hash: string, erring: bool)
    ensures SinksTold(FullStatus(a, p, hash, erring).conditions, Some(p.sinks))
  {
    var prev := if a.Some? then a.value else UNWRITTEN;
    var blank := if AnyFailed(p.sinks) then "" else hash;
    var built := Status(blank, 0, Conditions(p.sinks, p.now), Some(p.now), p.generation);
    var counted := RecordErrors(built, prev.errors, erring, p.threshold, p.now);
    FreshSinks(p.sinks, p.now);
    RecordOthers(built, prev.errors, erring, p.threshold, p.now, SinkFailed);
    RecordOthers(built, prev.errors, erring, p.threshold, p.now, Synced);
    FindKept(counted.conditions, prev.conditions, SinkFailed);
    FindKept(counted.conditions, prev.conditions, Synced);
  }

  lemma PassSinkConditions(a: Option<Status>, p: Pass, sinks: Option<seq<Delivery>>)
    requires if a.Some? then SinksTold(a.value.conditions, sinks) else sinks.None?
    ensures
      var out := ReconcilePass(a, p);
      match out.entry
      case Deleted => out.aibom.None?
      case Full(_, _, ds, true) => out.aibom.Some? && SinksTold(out.aibom.value.conditions, Some(ds))
      case _ => if out.aibom.Some? then SinksTold(out.aibom.value.conditions, sinks) else sinks.None?
  {
    var out := ReconcilePass(a, p);
    PassCases(a, p);
    PassSinks(a, p);
    match out.entry
    case Failed =>
      FailureOthers(a.value.conditions, ScrapeFailed, p.now, SinkFailed);
      FailureOthers(a.value.conditions, ScrapeFailed, p.now, Synced);
      FailureOthers(a.value.conditions, BuildFailed, p.now, SinkFailed);
      FailureOthers(a.value.conditions, BuildFailed, p.now, Synced);
    case Fast(erring) =>
      var s := a.value.(lastReconciled := Some(p.now), generation := p.generation);
      RecordOthers(s, a.value.errors, erring, p.threshold, p.now, SinkFailed);
      RecordOthers(s, a.value.errors, erring, p.threshold, p.now, Synced);
    case Full(hash, erring, _, true) => FullSinks(a, p, hash, erring);
    case _ =>
  }

  /** Over every run: SinkFailed holds if and only if some sink of the last written full pass failed,
      and Synced if and only if none did. */
  lemma {:induction false} SinkConditionsExact(passes: seq<Pass>)
    ensures
      var r := Play(passes);
      if r.aibom.Some? then SinksTold(r.aibom.value.conditions, LastSinks(r.log)) else LastSinks(r.log).None?
  {
    if passes != [] {
      var init, p := passes[..|passes| - 1], passes[|passes| - 1];
      SinkConditionsExact(init);
      var before, r := Play(init), Play(passes);
      assert r.log[..|r.log| - 1] == before.log;
      PassSinkConditions(before.aibom, p, LastSinks(before.log));
    }
  }

  // ------------------------------------------------------------------------- Ready

  /** Whether the most recent recorded pass that was not a fast path was a full one. */
  function LastVerdict(log: seq<Entry>): Option<bool> {
    if log == [] then None
    else match log[|log| - 1]
      case Deleted => None
      case Failed => Some(false)
      case Full(_, _, _, true) => Some(true)
      case _ => LastVerdict(log[..|log| - 1])
  }

  lemma FullReady(a: Option<Status>, p: Pass, hash: string, erring: bool)
    ensures
      var c := Find(FullStatus(a, p, hash, erring).conditions, Ready);
      c.Some? && c.value.holds
  {
    var prev := if a.Some? then a.value else UNWRITTEN;
    var blank := if AnyFailed(p.sinks) then "" else hash;
    var built := Status(blank, 0, Conditions(p.sinks, p.now), Some(p.now), p.generation);
    FreshStale(p.sinks, p.now);
    RecordOthers(built, prev.errors, erring, p.threshold, p.now, Ready);
    FindKept(RecordErrors(built, prev.errors, erring, p.threshold, p.now).conditions, prev.conditions, Ready);
  }

  lemma ReadyAfter(a: Option<Status>, p: Pass)
    ensures
      var out := ReconcilePass(a, p);
      match out.entry
      case Deleted => out.aibom.None?
      case Failed => out.aibom.Some? && Find(out.aibom.value.conditions, Ready).Some? &&
        !Find(out.aibom.value.conditions, Ready).value.holds
      case Full(_, _, _, true) => out.aibom.Some? && Find(out.aibom.value.conditions, Ready).Some? &&
        Find(out.aibom.value.conditions, Ready).value.holds
      case Fast(_) => a.Some? && out.aibom.Some? &&
        Find(out.aibom.value.conditions, Ready) == Find(a.value.conditions, Ready)
      case _ => out.aibom == a || (a.None? && out.aibom == Some(UNWRITTEN))
  {
    var out := ReconcilePass(a, p);
    PassCases(a, p);
    match out.entry
    case Failed =>
      FailureKeepsStale(a.value.conditions, ScrapeFailed, p.now);
      FailureKeepsStale(a.value.conditions, BuildFailed, p.now);
    case Fast(erring) =>
      RecordOthers(a.value.(lastReconciled := Some(p.now), generation := p.generation), a.value.errors, erring,
        p.threshold, p.now, Ready);
    case Full(hash, erring, _, true) => FullReady(a, p, hash, erring);
    case _ =>
  }

  /** A recorded failure names its cause. */
  lemma FailureNamed(a: Option<Status>, p: Pass)
    requires ReconcilePass(a, p).entry.Failed?
    ensures
      var out := ReconcilePass(a, p);
      && out.aibom.Some? && Find(out.aibom.value.conditions, Ready).Some?
      && Find(out.aibom.value.conditions, Ready).value.reason == if p.scrape.ScrapeError? then ScrapeFailed
        else BuildFailed
  {
    var cs, reason := a.value.conditions, if p.scrape.ScrapeError? then ScrapeFailed else BuildFailed;
    var b := Find(cs, Ready);
    FindHasType(cs, Ready);
    var c := if b.Some? then Transition(b.value, false, reason, p.now) else Condition(Ready, false, reason, p.now);
    FindPut(cs, c, Ready);
  }

  /** Ready is what the last full or failed pass said: a fast path repeats it, so Ready=True holds
      after a successful pass exactly when no failure was recorded since the last full pass. */
  lemma {:induction false} ReadyExact(passes: seq<Pass>)
    ensures
      var r := Play(passes);
      match r.aibom
      case None => LastVerdict(r.log).None?
      case Some(s) =>
        match Find(s.conditions, Ready)
        case None => LastVerdict(r.log).None?
        case Some(c) => LastVerdict(r.log) == Some(c.holds)
  {
    if passes != [] {
      var init, p := passes[..|passes| - 1], passes[|passes| - 1];
      ReadyExact(init);
      var before, r := Play(init), Play(passes);
      var out := ReconcilePass(before.aibom, p);
      assert r.log[..|r.log| - 1] == before.log;
      ReadyAfter(before.aibom, p);
    }
  }
}
