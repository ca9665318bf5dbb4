/**
 The configuration machine with last-known-good (internal/controller/
 aibomcontrollerconfig_reconciler.go, internal/config/loader.go, internal/config/snapshot.go):
 which snapshot is live after any history of loads, and who owns each constructed sink.

 A sink is an identity; a snapshot carries the address it was allocated at, since the reconciler
 compares snapshots by pointer.
 */
module ConfigMachine {
  import opened Common

  type Sink = nat

  datatype Source = CompiledDefaults | ConfigCr | LastKnownGood

  /** What the CR says, apart from its sinks. */
  datatype Settings = Defaults | FromSpec(generation: int, content: string)

  datatype Snapshot = Snapshot(address: nat, source: Source, settings: Settings, sinks: seq<Sink>)

  function DefaultSnapshot(address: nat): Snapshot { Snapshot(address, CompiledDefaults, Defaults, []) }

  /** A copy at a new address, or the snapshot itself when it is already marked. */
  function MarkAsLastKnownGood(s: Snapshot, address: nat): Snapshot {
    if s.source.LastKnownGood? then s else s.(address := address, source := LastKnownGood)
  }

  // ----------------------------------------------------------------------------- the loader

  datatype Built = BuiltSink(sink: Sink) | BuildError(message: string)

  /** A fetched CR: the errors its fields and sink shapes have, and what building each sink gives. */
  datatype Spec = Spec(settings: Settings, fieldErrors: seq<string>, shapeErrors: seq<string>, sinks: seq<Built>)

  datatype CrRead = ReadFailed | NotFound | Found(spec: Spec)

  datatype LoadResult = LoadResult(snapshot: Option<Snapshot>, errors: seq<string>)

  function SinksOf(built: seq<Built>): seq<Sink> {
    if built == [] then []
    else
      var last := built[|built| - 1];
      SinksOf(built[..|built| - 1]) + if last.BuiltSink? then [last.sink] else []
  }

  function ErrorsOf(built: seq<Built>): seq<string> {
    if built == [] then []
    else
      var last := built[|built| - 1];
      ErrorsOf(built[..|built| - 1]) + if last.BuildError? then [last.message] else []
  }

  /** Sinks are constructed only when their shapes are valid. */
  function Constructed(spec: Spec): seq<Sink> {
    if spec.shapeErrors == [] then SinksOf(spec.sinks) else []
  }

  function AllErrors(spec: Spec): seq<string> {
    spec.fieldErrors + spec.shapeErrors + if spec.shapeErrors == [] then ErrorsOf(spec.sinks) else []
  }

  predicate SpecValid(spec: Spec) { AllErrors(spec) == [] }

  ghost function AsSinks(ss: seq<Sink>): seq<Built> { seq(|ss|, i requires 0 <= i < |ss| => BuiltSink(ss[i])) }
  ghost function AsErrors(ms: seq<string>): seq<Built> { seq(|ms|, i requires 0 <= i < |ms| => BuildError(ms[i])) }

  /** The sinks built are exactly those of the builds that succeeded, in the order of the spec ... */
  lemma {:induction false} SinksExact(built: seq<Built>) returns (at: seq<nat>)
    ensures Picks(built, at, AsSinks(SinksOf(built)))
    ensures forall i: nat :: i in at <==> i < |built| && built[i].BuiltSink?
  {
    at := [];
    if built != [] {
      var init, last := built[..|built| - 1], built[|built| - 1];
      at := SinksExact(init);
      PicksMore(init, at, AsSinks(SinksOf(init)), last);
      assert built == init + [last];
      if last.BuiltSink? {
        at := at + [|init|];
        assert AsSinks(SinksOf(built)) == AsSinks(SinksOf(init)) + [last];
      }
    }
  }

  /** ... and the errors are exactly those of the builds that failed. */
  lemma {:induction false} BuildErrorsExact(built: seq<Built>) returns (at: seq<nat>)
    ensures Picks(built, at, AsErrors(ErrorsOf(built)))
    ensures forall i: nat :: i in at <==> i < |built| && built[i].BuildError?
  {
    at := [];
    if built != [] {
      var init, last := built[..|built| - 1], built[|built| - 1];
      at := BuildErrorsExact(init);
      PicksMore(init, at, AsErrors(ErrorsOf(init)), last);
      assert built == init + [last];
      if last.BuildError? {
        at := at + [|init|];
        assert AsErrors(ErrorsOf(built)) == AsErrors(ErrorsOf(init)) + [last];
      }
    }
  }

  lemma {:induction false} AllBuilt(built: seq<Built>)
    requires forall i :: 0 <= i < |built| ==> built[i].BuiltSink?
    ensures ErrorsOf(built) == [] && |SinksOf(built)| == |built|
    ensures forall i :: 0 <= i < |built| ==> built[i] == BuiltSink(SinksOf(built)[i])
  {
    if built != [] { AllBuilt(built[..|built| - 1]); }
  }

  /** A spec is valid if and only if no field and no sink shape is wrong and every sink was built; then
      its sinks are all of them, in order. */
  lemma SpecValidExactly(spec: Spec)
    ensures SpecValid(spec) <==>
      && spec.fieldErrors == [] && spec.shapeErrors == []
      && forall i :: 0 <= i < |spec.sinks| ==> spec.sinks[i].BuiltSink?
    ensures SpecValid(spec) ==>
      && |Constructed(spec)| == |spec.sinks|
      && forall i :: 0 <= i < |spec.sinks| ==> spec.sinks[i] == BuiltSink(Constructed(spec)[i])
    ensures spec.shapeErrors != [] ==> Constructed(spec) == []
  {
    var bad := BuildErrorsExact(spec.sinks);
    if i: nat :| i < |spec.sinks| && spec.sinks[i].BuildError? {
      assert i in bad;
    } else {
      AllBuilt(spec.sinks);
    }
  }

  /** All or nothing: a spec with any error yields the defaults, and every sink constructed on the
      way is closed; a valid spec yields itself with all its sinks, none closed. */
  method ParseSpec(spec: Spec, address: nat) returns (result: LoadResult, closed: seq<Sink>)
    ensures result.snapshot.Some?
    ensures result.errors == AllErrors(spec)
    ensures SpecValid(spec) ==>
      result.snapshot.value == Snapshot(address, ConfigCr, spec.settings, Constructed(spec)) && closed == []
    ensures !SpecValid(spec) ==> result.snapshot.value == DefaultSnapshot(address) && closed == Constructed(spec)
  {
    var errs := spec.fieldErrors + spec.shapeErrors;
    var sinks: seq<Sink> := [];
    if |spec.shapeErrors| == 0 {
      for i := 0 to |spec.sinks|
        invariant sinks == SinksOf(spec.sinks[..i])
        invariant errs == spec.fieldErrors + ErrorsOf(spec.sinks[..i])
      {
        assert spec.sinks[..i + 1][..i] == spec.sinks[..i];
        match spec.sinks[i]
        case BuiltSink(s) => sinks := sinks + [s];
        case BuildError(m) => errs := errs + [m];
      }
      assert spec.sinks[..|spec.sinks|] == spec.sinks;
    }
    if |errs| > 0 {
      return LoadResult(Some(DefaultSnapshot(address)), errs), sinks;
    }
    return LoadResult(Some(Snapshot(address, ConfigCr, spec.settings, sinks)), []), [];
  }

  // ---------------------------------------------------------------------------- the machine

  datatype Observed = NotYet | Missing | Invalid | Valid

  datatype Notice = Loaded | WentInvalid | WentInvalidKeepingGood | Recovered | ReportedMissing | ReportedDeleted

  datatype StatusWrite = Written | Gone | Conflict | WriteFailed

  datatype Reply = Done | Requeue | Error

  datatype Machine = Machine(
    live: Snapshot,
    scheduled: seq<Sink>,
    discarded: seq<Sink>,
    lastObserved: Observed,
    configInvalid: bool,
    notices: seq<Notice>,
    nextAddress: nat)

  const INITIAL := Machine(DefaultSnapshot(0), [], [], NotYet, false, [], 1)

  function Classify(r: LoadResult): Observed {
    if r.snapshot.None? then Missing
    else if r.errors != [] then Invalid
    else if r.snapshot.value.source.CompiledDefaults? then Missing
    else Valid
  }

  /** The snapshot to store for a load result, given the live one. */
  function ToStore(prev: Snapshot, r: LoadResult, address: nat): Option<Snapshot> {
    if Classify(r).Invalid? && prev.source.ConfigCr? then Some(MarkAsLastKnownGood(prev, address))
    else if Classify(r).Invalid? && prev.source.LastKnownGood? then Some(prev)
    else r.snapshot
  }

  /** Old sinks are scheduled for closing unless the stored snapshot is the old one or keeps its
      sinks as last known good. */
  function Scheduling(prev: Snapshot, next: Option<Snapshot>): seq<Sink> {
    if next == Some(prev) || (next.Some? && next.value.source.LastKnownGood?) then [] else prev.sinks
  }

  function Announcement(from: Observed, to: Observed, live: Snapshot): seq<Notice> {
    if from == to then []
    else match to
      case Missing => if from.NotYet? then [ReportedMissing] else [ReportedDeleted]
      case Valid => if from.Invalid? then [Recovered, Loaded] else [Loaded]
      case Invalid => if live.source.LastKnownGood? then [WentInvalidKeepingGood] else [WentInvalid]
      case NotYet => []
  }

  /** Storing a load's outcome; `closed` are the sinks the loader closed. */
  function Swap(m: Machine, r: LoadResult, closed: seq<Sink>): Machine {
    var next := ToStore(m.live, r, m.nextAddress + 1);
    m.(live := if next.Some? then next.value else m.live,
       scheduled := m.scheduled + Scheduling(m.live, next),
       discarded := m.discarded + closed,
       nextAddress := m.nextAddress + 2)
  }

  /** Events, the config-health bit and, unless the status write fails, the observation. */
  function Note(m: Machine, to: Observed, write: StatusWrite): Machine {
    m.(lastObserved := if to.Missing? || write.Written? || write.Gone? then to else m.lastObserved,
       configInvalid := if m.lastObserved == to then m.configInvalid else to.Invalid?,
       notices := m.notices + Announcement(m.lastObserved, to, m.live))
  }

  /** One reconcile after a load that returned a result. */
  function Absorb(m: Machine, r: LoadResult, closed: seq<Sink>, write: StatusWrite): Machine {
    Note(Swap(m, r, closed), Classify(r), write)
  }

  /** What a read loads; the snapshot is allocated at `address`. */
  function Loading(read: CrRead, address: nat): LoadResult
    requires !read.ReadFailed?
  {
    match read
    case NotFound => LoadResult(Some(DefaultSnapshot(address)), [])
    case Found(spec) =>
      LoadResult(
        Some(if SpecValid(spec) then Snapshot(address, ConfigCr, spec.settings, Constructed(spec))
          else DefaultSnapshot(address)),
        AllErrors(spec))
  }

  function ClosedByLoader(read: CrRead): seq<Sink> {
    if read.Found? && !SpecValid(read.spec) then Constructed(read.spec) else []
  }

  function Turn(m: Machine, read: CrRead, write: StatusWrite): Machine {
    if read.ReadFailed? then m
    else Absorb(m, Loading(read, m.nextAddress), ClosedByLoader(read), write)
  }

  /** The reconciler with its store. */
  class Reconciler {
    var current: Snapshot
    var scheduled: seq<Sink>
    var discarded: seq<Sink>
    var lastObserved: Observed
    var configInvalid: bool
    var notices: seq<Notice>
    var nextAddress: nat

    function View(): Machine
      reads this
    {
      Machine(current, scheduled, discarded, lastObserved, configInvalid, notices, nextAddress)
    }

    constructor ()
      ensures View() == INITIAL
    {
      current, scheduled, discarded := DefaultSnapshot(0), [], [];
      lastObserved, configInvalid, notices, nextAddress := NotYet, false, [], 1;
    }

    method Store(result: LoadResult, closed: seq<Sink>)
      modifies this`current, this`scheduled, this`discarded, this`nextAddress
      ensures View() == Swap(old(View()), result, closed)
    {
      var to, prev := Classify(result), current;
      var toStore := result.snapshot;
      if to == Invalid {
        if prev.source == ConfigCr {
          toStore := Some(MarkAsLastKnownGood(prev, nextAddress + 1));
        } else if prev.source == LastKnownGood {
          toStore := Some(prev);
        }
      }
      assert toStore == ToStore(prev, result, nextAddress + 1);
      nextAddress := nextAddress + 2;
      discarded := discarded + closed;
      var retain := toStore.Some? && toStore.value.source == LastKnownGood;
      if toStore != Some(prev) && !retain {
        scheduled := scheduled + prev.sinks;
      }
      if toStore.Some? {
        current := toStore.value;
      }
    }

    method Report(to: Observed, write: StatusWrite) returns (reply: Reply)
      modifies this`lastObserved, this`configInvalid, this`notices
      ensures View() == Note(old(View()), to, write)
      ensures reply == if to.Missing? then Done else if write.Conflict? then Requeue
        else if write.WriteFailed? then Error else Done
    {
      notices := notices + Announcement(lastObserved, to, current);
      if lastObserved != to {
        configInvalid := to == Invalid;
      }
      if to != Missing {
        if write == Conflict {
          return Requeue;
        } else if write == WriteFailed {
          return Error;
        }
      }
      lastObserved := to;
      return Done;
    }

    /** A transient read failure changes nothing; anything else is one turn of the machine. */
    method Reconcile(read: CrRead, write: StatusWrite) returns (reply: Reply)
      modifies this
      ensures View() == Turn(old(View()), read, write)
      ensures reply.Error? <==> read.ReadFailed? || (read.Found? && write.WriteFailed?)
      ensures reply.Requeue? <==> read.Found? && write.Conflict?
    {
      var address := nextAddress;
      var result;
      var closed: seq<Sink> := [];
      match read {
        case ReadFailed =>
          return Error;
        case NotFound =>
          result := LoadResult(Some(DefaultSnapshot(address)), []);
        case Found(spec) =>
          result, closed := ParseSpec(spec, address);
      }
      Store(result, closed);
      reply := Report(Classify(result), write);
    }
  }

  // --------------------------------------------------------------------------- histories

  datatype Attempt = Attempt(read: CrRead, write: StatusWrite)

  function Play(h: seq<Attempt>): Machine {
    if h == [] then INITIAL
    else Turn(Play(h[..|h| - 1]), h[|h| - 1].read, h[|h| - 1].write)
  }

  predicate ValidLoad(a: Attempt) { a.read.Found? && SpecValid(a.read.spec) }
  predicate InvalidLoad(a: Attempt) { a.read.Found? && !SpecValid(a.read.spec) }

  /** Load `i` is valid, and after it there were only invalid loads and failed reads. */
  ghost predicate InEffect(h: seq<Attempt>, i: nat) {
    i < |h| && ValidLoad(h[i]) && forall j :: i < j < |h| ==> h[j].read.ReadFailed? || InvalidLoad(h[j])
  }

  ghost predicate InvalidSince(h: seq<Attempt>, i: nat) {
    exists j :: i < j < |h| && InvalidLoad(h[j])
  }

  lemma {:induction false} AddressesFresh(h: seq<Attempt>)
    ensures Play(h).live.address < Play(h).nextAddress
    ensures Play(h).live.source.CompiledDefaults? ==> Play(h).live.settings.Defaults? && Play(h).live.sinks == []
  {
    if h != [] { AddressesFresh(h[..|h| - 1]); }
  }

  predicate IsDefault(s: Snapshot) { s.source.CompiledDefaults? && s.settings.Defaults? && s.sinks == [] }

  /** A valid load is live at once; an invalid one, or a failed read, keeps a loaded snapshot;
      without one, and when the CR is missing, the defaults are live. */
  lemma TurnLive(m: Machine, a: Attempt)
    ensures
      var live := Turn(m, a.read, a.write).live;
      && (a.read.ReadFailed? ==> live == m.live)
      && (ValidLoad(a) ==>
           live.source.ConfigCr? && live.settings == a.read.spec.settings && live.sinks == Constructed(a.read.spec))
      && (InvalidLoad(a) && !m.live.source.CompiledDefaults? ==>
            live.source.LastKnownGood? && live.settings == m.live.settings && live.sinks == m.live.sinks)
      && (a.read.NotFound? || (InvalidLoad(a) && m.live.source.CompiledDefaults?) ==> IsDefault(live))
  {
  }

  lemma InvalidSinceStep(h: seq<Attempt>, i: nat)
    requires i < |h| - 1
    ensures InvalidSince(h, i) <==> InvalidSince(h[..|h| - 1], i) || InvalidLoad(h[|h| - 1])
  {
    assert forall j :: 0 <= j < |h| - 1 ==> h[..|h| - 1][j] == h[j];
  }

  /** After any history, the most recent valid load since the CR was last missing is live, with its
      settings and all its sinks, and it is marked last-known-good exactly when a later load was
      invalid. */
  lemma {:induction false} LastValidIsLive(h: seq<Attempt>, i: nat)
    requires InEffect(h, i)
    ensures
      var live, spec := Play(h).live, h[i].read.spec;
      && live.settings == spec.settings && live.sinks == Constructed(spec)
      && live.source == if InvalidSince(h, i) then LastKnownGood else ConfigCr
  {
    var init, last := h[..|h| - 1], h[|h| - 1];
    TurnLive(Play(init), last);
    if i < |h| - 1 {
      assert InEffect(init, i);
      LastValidIsLive(init, i);
      InvalidSinceStep(h, i);
    }
  }

  lemma LastLoadInEffect(h: seq<Attempt>)
    requires h != []
    ensures ValidLoad(h[|h| - 1]) ==> exists i :: InEffect(h, i)
  {
    var n := |h| - 1;
    assert ValidLoad(h[n]) ==> InEffect(h, n);
  }

  lemma InEffectStays(h: seq<Attempt>, i: nat)
    requires h != [] && (h[|h| - 1].read.ReadFailed? || InvalidLoad(h[|h| - 1]))
    requires InEffect(h[..|h| - 1], i)
    ensures InEffect(h, i)
  {
  }

  /** Otherwise the compiled defaults are live. */
  lemma {:induction false} OtherwiseDefaults(h: seq<Attempt>)
    requires forall i :: !InEffect(h, i)
    ensures IsDefault(Play(h).live)
  {
    if h != [] {
      var init, last := h[..|h| - 1], h[|h| - 1];
      LastLoadInEffect(h);
      TurnLive(Play(init), last);
      if last.read.ReadFailed? || InvalidLoad(last) {
        forall i: nat | InEffect(init, i) ensures false { InEffectStays(h, i); }
        OtherwiseDefaults(init);
      }
    }
  }

  // ------------------------------------------------------------------------- sink ownership

  function EverConstructed(h: seq<Attempt>): seq<Sink> {
    if h == [] then []
    else
      var read := h[|h| - 1].read;
      EverConstructed(h[..|h| - 1]) + if read.Found? then Constructed(read.spec) else []
  }

  function Held(m: Machine): multiset<Sink> {
    multiset(m.live.sinks) + multiset(m.scheduled) + multiset(m.discarded)
  }

  /** Where the sinks of the old snapshot and those of this load go. */
  lemma SinkFlow(m: Machine, read: CrRead)
    requires m.live.address < m.nextAddress && !read.ReadFailed?
    ensures
      var next := ToStore(m.live, Loading(read, m.nextAddress), m.nextAddress + 1);
      var built := if read.Found? then Constructed(read.spec) else [];
      && next.Some?
      && if next.value.source.LastKnownGood?
         then next.value.sinks == m.live.sinks && Scheduling(m.live, next) == [] && ClosedByLoader(read) == built
         else Scheduling(m.live, next) == m.live.sinks && next.value.sinks + ClosedByLoader(read) == built
  {
    var next := ToStore(m.live, Loading(read, m.nextAddress), m.nextAddress + 1);
    if !next.value.source.LastKnownGood? {
      assert next.value.address == m.nextAddress;
    }
  }

  lemma Rebalanced(live: seq<Sink>, scheduled: seq<Sink>, discarded: seq<Sink>,
                   next: seq<Sink>, went: seq<Sink>, closed: seq<Sink>, built: seq<Sink>)
    requires (next == live && went == [] && closed == built) || (went == live && next + closed == built)
    ensures multiset(next) + multiset(scheduled + went) + multiset(discarded + closed)
         == multiset(live) + multiset(scheduled) + multiset(discarded) + multiset(built)
  {
    if went == live && next + closed == built {
      assert multiset(built) == multiset(next) + multiset(closed);
    }
  }

  lemma TurnConserves(m: Machine, read: CrRead, write: StatusWrite)
    requires m.live.address < m.nextAddress && !read.ReadFailed?
    ensures Held(Turn(m, read, write)) == Held(m) + multiset(if read.Found? then Constructed(read.spec) else [])
  {
    SinkFlow(m, read);
    var next := ToStore(m.live, Loading(read, m.nextAddress), m.nextAddress + 1);
    var built := if read.Found? then Constructed(read.spec) else [];
    var m' := Turn(m, read, write);
    var went, closed := Scheduling(m.live, next), ClosedByLoader(read);
    assert m'.live == next.value && m'.scheduled == m.scheduled + went && m'.discarded == m.discarded + closed;
    Rebalanced(m.live.sinks, m.scheduled, m.discarded, next.value.sinks, went, closed, built);
  }

  /** Conservation: over every history, the sinks in the live snapshot, those scheduled for closing
      and those the loader closed are together exactly the sinks ever constructed, with
      multiplicity. */
  lemma {:induction false} SinksConserved(h: seq<Attempt>)
    ensures Held(Play(h)) == multiset(EverConstructed(h))
  {
    if h != [] {
      var init, last := h[..|h| - 1], h[|h| - 1];
      SinksConserved(init);
      AddressesFresh(init);
      var m := Play(init);
      if last.read.Found? {
        TurnConserves(m, last.read, last.write);
      } else {
        assert EverConstructed(h) == EverConstructed(init);
        if last.read.NotFound? { TurnConserves(m, last.read, last.write); }
      }
    }
  }

  /** With every constructed sink a distinct object: each is in exactly one place, and none is
      scheduled twice or while it is still in the live snapshot. */
  lemma EachSinkInOnePlace(h: seq<Attempt>, s: Sink)
    requires multiset(EverConstructed(h))[s] == 1
    ensures
      var m := Play(h);
      && multiset(m.live.sinks)[s] + multiset(m.scheduled)[s] + multiset(m.discarded)[s] == 1
      && (s in m.live.sinks ==> s !in m.scheduled && s !in m.discarded)
      && (s in m.scheduled ==> s !in m.live.sinks && s !in m.discarded)
  {
    SinksConserved(h);
    var m := Play(h);
    assert Held(m)[s] == 1;
    assert s in m.live.sinks <==> multiset(m.live.sinks)[s] > 0;
    assert s in m.scheduled <==> multiset(m.scheduled)[s] > 0;
    assert s in m.discarded <==> multiset(m.discarded)[s] > 0;
  }

  /** The store refuses a nil snapshot but its predecessor's sinks are scheduled all the same: on a
      result without a snapshot, ownership is kept exactly when the live snapshot has no sinks.
      The loader never returns such a result. */
  lemma NilSnapshotSchedulesLiveSinks(m: Machine, r: LoadResult, write: StatusWrite)
    requires r.snapshot.None?
    ensures Absorb(m, r, [], write).live == m.live
    ensures Held(Absorb(m, r, [], write)) == Held(m) <==> m.live.sinks == []
  {
    var m' := Absorb(m, r, [], write);
    assert m'.scheduled == m.scheduled + m.live.sinks;
    assert m'.discarded == m.discarded;
    assert multiset(m'.scheduled) == multiset(m.scheduled) + multiset(m.live.sinks);
    if m.live.sinks != [] {
      var s := m.live.sinks[0];
      assert s in multiset(m.live.sinks);
      assert Held(m')[s] == Held(m)[s] + multiset(m.live.sinks)[s];
    }
  }

  // ------------------------------------------------------------- the config-health bit

  /** The class of a load; a failed read loads nothing. */
  function ClassOf(a: Attempt): Observed {
    match a.read
    case ReadFailed => NotYet
    case NotFound => Missing
    case Found(spec) => if SpecValid(spec) then Valid else Invalid
  }

  /** The load's status write did not land: it returned early with a conflict or an error. */
  predicate Unrecorded(a: Attempt) { a.read.Found? && (a.write.Conflict? || a.write.WriteFailed?) }

  /** The class of the most recent load. */
  function Latest(h: seq<Attempt>): Observed {
    if h == [] then NotYet
    else
      var init, last := h[..|h| - 1], h[|h| - 1];
      if last.read.ReadFailed? then Latest(init) else ClassOf(last)
  }

  /** The class of the most recent load that was recorded. */
  function Recorded(h: seq<Attempt>): Observed {
    if h == [] then NotYet
    else
      var init, last := h[..|h| - 1], h[|h| - 1];
      if last.read.ReadFailed? || Unrecorded(last) then Recorded(init) else ClassOf(last)
  }

  /** Load `j` was of another class than the one then recorded. */
  predicate IsNews(h: seq<Attempt>, j: nat) {
    j < |h| && !h[j].read.ReadFailed? && ClassOf(h[j]) != Recorded(h[..j])
  }

  /** The class of the most recent load that was news. */
  function LastNews(h: seq<Attempt>): Observed {
    if h == [] then NotYet
    else
      var n := |h| - 1;
      if IsNews(h, n) then ClassOf(h[n]) else LastNews(h[..n])
  }

  /** The config-health bit says, over every history and whatever becomes of the status writes,
      whether the most recent news was an invalid load. */
  lemma {:induction false} HealthBitIsNews(h: seq<Attempt>)
    ensures Play(h).lastObserved == Recorded(h) && (Play(h).configInvalid <==> LastNews(h).Invalid?)
  {
    if h != [] { HealthBitIsNews(h[..|h| - 1]); }
  }

  /** News `j` was not recorded, and nothing but failed reads and loads of the class recorded before
      it came after. */
  ghost predicate NoNewsSince(h: seq<Attempt>, j: nat) {
    && IsNews(h, j) && Unrecorded(h[j])
    && (forall k :: j < k < |h| && !h[k].read.ReadFailed? ==> ClassOf(h[k]) == Recorded(h[..j]))
  }

  /** News `j` was not recorded, and loads came back to the class recorded before it. */
  ghost predicate Overtaken(h: seq<Attempt>, j: nat) {
    NoNewsSince(h, j) && exists k :: j < k < |h| && !h[k].read.ReadFailed?
  }

  lemma OvertakenStep(h: seq<Attempt>, j: nat)
    requires j < |h| - 1 && NoNewsSince(h, j) && NoNewsSince(h[..|h| - 1], j)
    ensures Overtaken(h, j) <==> Overtaken(h[..|h| - 1], j) || !h[|h| - 1].read.ReadFailed?
  {
    var n := |h| - 1;
    assert forall k :: 0 <= k < n ==> h[..n][k] == h[k];
  }

  /** While no news follows it, unrecorded news stays the last. */
  lemma {:induction false} NewsStays(h: seq<Attempt>, j: nat)
    requires NoNewsSince(h, j)
    ensures LastNews(h) == ClassOf(h[j]) && Recorded(h) == Recorded(h[..j])
    ensures Latest(h) == if Overtaken(h, j) then Recorded(h[..j]) else ClassOf(h[j])
  {
    var n := |h| - 1;
    if j == n {
      assert !Overtaken(h, j);
    } else {
      var init := h[..n];
      assert init[..j] == h[..j] && init[j] == h[j];
      assert NoNewsSince(init, j);
      NewsStays(init, j);
      OvertakenStep(h, j);
    }
  }

  /** A load that is no news keeps unrecorded news the last. */
  lemma NoNewsMore(h: seq<Attempt>, j: nat)
    requires h != [] && NoNewsSince(h[..|h| - 1], j) && !IsNews(h, |h| - 1)
    ensures NoNewsSince(h, j)
  {
    var n := |h| - 1;
    NewsStays(h[..n], j);
    assert h[..n][..j] == h[..j];
    assert forall k :: 0 <= k < n ==> h[..n][k] == h[k];
  }

  /** The last news is either the latest load's class, recorded or not, or it was overtaken. */
  lemma {:induction false} NewsCases(h: seq<Attempt>) returns (j: nat)
    ensures (LastNews(h) == Latest(h) && LastNews(h) == Recorded(h)) || NoNewsSince(h, j)
  {
    j := 0;
    if h != [] {
      var n := |h| - 1;
      j := NewsCases(h[..n]);
      if IsNews(h, n) {
        j := n;
      } else if NoNewsSince(h[..n], j) {
        NoNewsMore(h, j);
      }
    }
  }

  /** The bit is wrong exactly when an unrecorded load was overtaken, and it or what it was overtaken
      by was invalid. */
  lemma HealthBitExact(h: seq<Attempt>)
    ensures (Play(h).configInvalid <==> Latest(h).Invalid?) <==>
            !exists j: nat :: Overtaken(h, j) && (ClassOf(h[j]).Invalid? || Recorded(h[..j]).Invalid?)
  {
    HealthBitIsNews(h);
    forall j: nat | Overtaken(h, j)
      ensures LastNews(h) == ClassOf(h[j]) != Latest(h) == Recorded(h[..j])
    {
      NewsStays(h, j);
    }
    var j := NewsCases(h);
    if NoNewsSince(h, j) { NewsStays(h, j); }
  }

  /** So it is exact in every history without a conflict or a failure on a status write. */
  lemma RecordedBitExact(h: seq<Attempt>)
    requires forall a :: a in h ==> !Unrecorded(a)
    ensures Play(h).configInvalid <==> Latest(h).Invalid?
  {
    HealthBitExact(h);
    assert forall j: nat :: Overtaken(h, j) ==> h[j] in h;
  }

  /** The live snapshot is kept as last known good while some valid load is still in effect. */
  ghost predicate KeepingGood(h: seq<Attempt>) { exists i: nat :: InEffect(h, i) }

  /** Over every history: a load gives events exactly when it is news, and those of the change from
      the recorded class to its own; an invalid load says whether an earlier valid one is kept.  A
      failed read gives none. */
  lemma EventsExact(h: seq<Attempt>)
    requires h != []
    ensures
      var init, last := h[..|h| - 1], h[|h| - 1];
      Play(h).notices == Play(init).notices +
        if !IsNews(h, |h| - 1) then []
        else match ClassOf(last)
          case Missing => [if Recorded(init).NotYet? then ReportedMissing else ReportedDeleted]
          case Valid => if Recorded(init).Invalid? then [Recovered, Loaded] else [Loaded]
          case Invalid => [if KeepingGood(h) then WentInvalidKeepingGood else WentInvalid]
          case NotYet => []
  {
    var init, last := h[..|h| - 1], h[|h| - 1];
    HealthBitIsNews(init);
    if InvalidLoad(last) {
      if i: nat :| InEffect(h, i) {
        LastValidIsLive(h, i);
        assert InvalidSince(h, i);
      } else {
        OtherwiseDefaults(h);
      }
    }
  }

  /** The shortest history with a wrong bit: the invalid load meets a conflict, and the next valid
      load is compared with the observation before it. */
  lemma ConflictLeavesBitSet(ok: Spec, bad: Spec)
    requires SpecValid(ok) && !SpecValid(bad)
    ensures
      var h := [Attempt(Found(ok), Written), Attempt(Found(bad), Conflict), Attempt(Found(ok), Written)];
      Overtaken(h, 1) && Latest(h).Valid? && Play(h).configInvalid
  {
    var a, b := Attempt(Found(ok), Written), Attempt(Found(bad), Conflict);
    var h := [a, b, a];
    assert h[..1] == [a] && [a][..0] == [];
    assert Recorded([a]) == Valid;
    assert Overtaken(h, 1) by { assert !h[2].read.ReadFailed?; }
    NewsStays(h, 1);
    HealthBitIsNews(h);
  }
}
