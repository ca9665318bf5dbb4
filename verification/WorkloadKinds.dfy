/**
 Workload kinds and the spec.discovery.workloadKinds allowlist (internal/config/workloadkinds.go).
 */
module WorkloadKinds {
  import opened Common
  import opened Text

  datatype GroupKind = GroupKind(group: string, kind: string)

  /** The parsed allowlist; an absent or empty list allows every kind. */
  datatype WorkloadKindSet = All | Only(kinds: set<GroupKind>)
  {
    predicate Allows(gk: GroupKind) { All? || gk in kinds }
  }

  const CORE := "core"

  const KNOWN: seq<GroupKind> := [
    GroupKind("apps", "Deployment"),
    GroupKind("apps", "StatefulSet"),
    GroupKind("apps", "DaemonSet"),
    GroupKind("batch", "Job"),
    GroupKind("batch", "CronJob"),
    GroupKind("serving.kserve.io", "InferenceService"),
    GroupKind("nvidia.com", "DynamoGraphDeployment"),
    GroupKind("nvidia.com", "DynamoComponentDeployment"),
    GroupKind("apps.nvidia.com", "NIMService"),
    GroupKind("leaderworkerset.x-k8s.io", "LeaderWorkerSet"),
    GroupKind("disaggregatedset.x-k8s.io", "DisaggregatedSet")
  ]

  function Format(gk: GroupKind): string {
    (if gk.group == "" then CORE else gk.group) + "/" + gk.kind
  }

  predicate HasBlank(s: string) { ' ' in s || '\t' in s }

  function Parse(entry: string): Result<GroupKind> {
    var parts := Split(entry, '/');
    if |parts| != 2 || parts[0] == "" || parts[1] == "" then Err("want Group/Kind")
    else if HasBlank(entry) then Err("must not contain whitespace")
    else Ok(GroupKind(if parts[0] == CORE then "" else parts[0], parts[1]))
  }

  /** A name part that an entry can carry. */
  predicate WellFormedPart(s: string) { '/' !in s && !HasBlank(s) }

  /** Printing a parsed kind gives back the entry, for every accepted string. */
  lemma FormatParsed(entry: string)
    requires Parse(entry).Ok?
    ensures Format(Parse(entry).value) == entry
  {
    var parts := Split(entry, '/');
    assert parts == [parts[0], parts[1]];
    SplitInTwo(entry, parts[0], parts[1], '/');
  }

  /** Parsing a printed kind gives back the kind exactly when both parts are well formed, the
      kind is not empty, and the group is not spelled like the core group. */
  lemma ParseFormatted(gk: GroupKind)
    ensures Parse(Format(gk)) == Ok(gk) <==>
            gk.kind != "" && gk.group != CORE && WellFormedPart(gk.group) && WellFormedPart(gk.kind)
  {
    var g := if gk.group == "" then CORE else gk.group;
    var e := g + "/" + gk.kind;
    assert Format(gk) == e;
    assert forall c :: c in e <==> c in g || c == '/' || c in gk.kind;
    if '/' !in g && '/' !in gk.kind {
      SplitInTwo(e, g, gk.kind, '/');
    }
    if Parse(e) == Ok(gk) {
      var parts := Split(e, '/');
      assert parts == [parts[0], parts[1]];
      SplitInTwo(e, parts[0], parts[1], '/');
    }
  }

  /** What is accepted, spelled out: the group, "core" for the empty one, a slash, and the kind. */
  lemma ParsedExactly(entry: string, gk: GroupKind)
    ensures Parse(entry) == Ok(gk) <==>
      && entry == (if gk.group == "" then "core" else gk.group) + "/" + gk.kind
      && gk.kind != "" && gk.group != "core"
      && forall c :: c in gk.group || c in gk.kind ==> c != '/' && c != ' ' && c != '\t'
  {
    ParseFormatted(gk);
    assert Format(gk) == (if gk.group == "" then "core" else gk.group) + "/" + gk.kind;
    if Parse(entry) == Ok(gk) { FormatParsed(entry); }
  }

  // ------------------------------------------------------------------------ the whole list

  datatype EntryError = Malformed(index: nat) | NotKnown(index: nat) | Duplicate(index: nat, first: nat)

  /** The entries of a list, each parsed. */
  type Outcomes = seq<Result<GroupKind>>

  predicate Accepted(known: seq<GroupKind>, o: Result<GroupKind>) { o.Ok? && o.value in known }

  ghost function FirstSameFrom(parsed: Outcomes, i: nat, from: nat): (j: nat)
    requires from <= i < |parsed|
    requires forall x: nat :: x < from ==> parsed[x] != parsed[i]
    ensures from <= j <= i && parsed[j] == parsed[i]
    ensures forall x: nat :: x < j ==> parsed[x] != parsed[i]
    decreases i - from
  {
    if parsed[from] == parsed[i] then from else FirstSameFrom(parsed, i, from + 1)
  }

  /** The first entry that parses like entry `i`. */
  ghost function FirstSame(parsed: Outcomes, i: nat): (j: nat)
    requires i < |parsed|
    ensures j <= i && parsed[j] == parsed[i]
    ensures forall x: nat :: x < j ==> parsed[x] != parsed[i]
  {
    FirstSameFrom(parsed, i, 0)
  }

  datatype Verdict = Named(gk: GroupKind) | Bad(error: EntryError)

  /** What entry `i` yields, read off the list alone: a kind named for the first time, or one
      error; a duplicate is reported against the first entry that named the kind. */
  ghost function VerdictAt(known: seq<GroupKind>, parsed: Outcomes, i: nat): (v: Verdict)
    requires i < |parsed|
    ensures v.Bad? ==> v.error.index == i
  {
    if parsed[i].Err? then Bad(Malformed(i))
    else if !Accepted(known, parsed[i]) then Bad(NotKnown(i))
    else
      var j := FirstSame(parsed, i);
      if j < i then Bad(Duplicate(i, j)) else Named(parsed[i].value)
  }

  /** An entry names its kind if and only if it parses, the kind is known, and no earlier entry names
      the same; otherwise it has the error that says why, a duplicate pointing at the first. */
  lemma VerdictExact(known: seq<GroupKind>, parsed: Outcomes, i: nat)
    requires i < |parsed|
    ensures
      var v := VerdictAt(known, parsed, i);
      && (v.Named? <==>
            parsed[i].Ok? && parsed[i].value in known && forall j :: 0 <= j < i ==> parsed[j] != parsed[i])
      && (v.Named? ==> v.gk == parsed[i].value)
      && (v.Bad? && v.error.Malformed? <==> parsed[i].Err?)
      && (v.Bad? && v.error.NotKnown? <==> parsed[i].Ok? && parsed[i].value !in known)
      && (v.Bad? && v.error.Duplicate? ==>
            && v.error.first < i && parsed[v.error.first] == parsed[i]
            && forall j :: 0 <= j < v.error.first ==> parsed[j] != parsed[i])
  {
  }

  /** The errors among the first `n` entries, in order. */
  ghost function ErrorsOf(known: seq<GroupKind>, parsed: Outcomes, n: nat): seq<EntryError>
    requires n <= |parsed|
  {
    if n == 0 then []
    else
      var v := VerdictAt(known, parsed, n - 1);
      ErrorsOf(known, parsed, n - 1) + if v.Bad? then [v.error] else []
  }

  /** Every entry without a kind has its error in the list, the list holds nothing else, and no
      index occurs twice. */
  lemma {:induction false} ErrorsExact(known: seq<GroupKind>, parsed: Outcomes, n: nat)
    requires n <= |parsed|
    ensures
      var errs := ErrorsOf(known, parsed, n);
      && (forall i: nat :: i < n && VerdictAt(known, parsed, i).Bad? ==> VerdictAt(known, parsed, i).error in errs)
      && (forall x :: 0 <= x < |errs| ==> errs[x].index < n && VerdictAt(known, parsed, errs[x].index) == Bad(errs[x]))
      && (forall x, y :: 0 <= x < y < |errs| ==> errs[x].index < errs[y].index)
  {
    if n > 0 {
      ErrorsExact(known, parsed, n - 1);
      var before, errs := ErrorsOf(known, parsed, n - 1), ErrorsOf(known, parsed, n);
      var v := VerdictAt(known, parsed, n - 1);
      if v.Bad? {
        assert errs == before + [v.error];
      } else {
        assert errs == before;
      }
    }
  }

  /** The kinds written in a list. */
  ghost function Written(parsed: Outcomes): set<GroupKind> {
    set i: nat | i < |parsed| && parsed[i].Ok? :: parsed[i].value
  }

  /** An empty list allows every kind, an error-free one exactly the kinds it writes. */
  lemma AllowsExactly(parsed: Outcomes, gk: GroupKind)
    ensures All.Allows(gk)
    ensures Only(Written(parsed)).Allows(gk) <==> exists i :: 0 <= i < |parsed| && parsed[i] == Ok(gk)
  {
    if i: nat :| i < |parsed| && parsed[i] == Ok(gk) {
      assert parsed[i].Ok? && parsed[i].value == gk;
    }
  }

  /** The kinds named by the first `i` entries, each with the entry that named it first. */
  ghost predicate SeenSoFar(known: seq<GroupKind>, parsed: Outcomes, seen: map<GroupKind, nat>, i: nat)
    requires i <= |parsed|
  {
    && (forall gk :: gk in seen ==>
         seen[gk] < i && parsed[seen[gk]] == Ok(gk) && FirstSame(parsed, seen[gk]) == seen[gk])
    && (forall j: nat :: j < i && Accepted(known, parsed[j]) ==> parsed[j].value in seen)
  }

  lemma SeenIsWritten(known: seq<GroupKind>, parsed: Outcomes, seen: map<GroupKind, nat>)
    requires SeenSoFar(known, parsed, seen, |parsed|) && ErrorsOf(known, parsed, |parsed|) == []
    ensures seen.Keys == Written(parsed)
  {
    ErrorsExact(known, parsed, |parsed|);
    assert forall i: nat :: i < |parsed| && !Accepted(known, parsed[i]) ==> VerdictAt(known, parsed, i).Bad?;
  }

  lemma SeenVerdict(known: seq<GroupKind>, parsed: Outcomes, seen: map<GroupKind, nat>, i: nat)
    requires i < |parsed| && SeenSoFar(known, parsed, seen, i)
    ensures
      if !Accepted(known, parsed[i]) then SeenSoFar(known, parsed, seen, i + 1)
      else
        var gk := parsed[i].value;
        if gk in seen then
          VerdictAt(known, parsed, i) == Bad(Duplicate(i, seen[gk])) && SeenSoFar(known, parsed, seen, i + 1)
        else
          VerdictAt(known, parsed, i) == Named(gk) && SeenSoFar(known, parsed, seen[gk := i], i + 1)
  {
    if Accepted(known, parsed[i]) {
      var gk, j := parsed[i].value, FirstSame(parsed, i);
      if gk in seen {
        var f := FirstSame(parsed, seen[gk]);
        assert parsed[f] == parsed[seen[gk]] == parsed[i];
        assert j == f;
      } else {
        assert Accepted(known, parsed[j]);
      }
    }
  }

  /** The errors are exactly those of the entries; the set is restricted exactly when the list is
      non-empty and free of errors, and then it is the set of kinds written, each written once. */
  method Validate(known: seq<GroupKind>, parsed: Outcomes)
    returns (allowed: WorkloadKindSet, errs: seq<EntryError>)
    ensures errs == ErrorsOf(known, parsed, |parsed|)
    ensures allowed.Only? <==> parsed != [] && errs == []
    ensures allowed.Only? ==> allowed.kinds == Written(parsed) && |allowed.kinds| == |parsed|
  {
    if |parsed| == 0 {
      return All, [];
    }
    errs := [];
    var seen: map<GroupKind, nat> := map[];
    for i := 0 to |parsed|
      invariant errs == ErrorsOf(known, parsed, i)
      invariant SeenSoFar(known, parsed, seen, i)
      invariant errs == [] ==> |seen| == i
    {
      SeenVerdict(known, parsed, seen, i);
      var o := parsed[i];
      if o.Err? {
        errs := errs + [Malformed(i)];
      } else if o.value !in known {
        errs := errs + [NotKnown(i)];
      } else if o.value in seen {
        errs := errs + [Duplicate(i, seen[o.value])];
      } else {
        seen := seen[o.value := i];
      }
    }
    if |errs| > 0 {
      return All, errs;
    }
    SeenIsWritten(known, parsed, seen);
    allowed := Only(seen.Keys);
  }

  function ParsedAll(entries: seq<string>): (parsed: Outcomes)
    ensures |parsed| == |entries|
    ensures forall i :: 0 <= i < |entries| ==> parsed[i] == Parse(entries[i])
  {
    seq(|entries|, i requires 0 <= i < |entries| => Parse(entries[i]))
  }

  /** Parses and validates the list. */
  method ParseAll(entries: seq<string>) returns (allowed: WorkloadKindSet, errs: seq<EntryError>)
    ensures errs == ErrorsOf(KNOWN, ParsedAll(entries), |entries|)
    ensures allowed.Only? <==> entries != [] && errs == []
    ensures allowed.Only? ==> allowed.kinds == Written(ParsedAll(entries)) && |allowed.kinds| == |entries|
  {
    allowed, errs := Validate(KNOWN, ParsedAll(entries));
  }
}
