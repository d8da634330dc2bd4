/** Stage 2 feasibility results and their JSON form. */
module Feasibility {
  import opened Wrappers

  datatype Json =
    | JNull
    | JBool(b: bool)
    | JInt(n: int)
    | JReal(x: real)
    | JString(s: string)
    | JList(items: seq<Json>)
    | JObject(fields: map<string, Json>)

  datatype Error =
    | NotAnObject
    | ChecksNotAList
    | CheckNotAnObject
    | MissingText(key: string)
    | UnknownStatus(status: string)
    | DetailsNotAnObject
    | DuplicateCheck(name: string)
    | UnsupportedVersion

  datatype Check = Check(name: string, status: string, reason: string, details: map<string, Json>)

  datatype FeasibilityResult = FeasibilityResult(batchId: string, candidateId: string, candidateDir: string,
                                                 hypothesisId: string, familyId: string,
                                                 checks: seq<Check>, schemaVersion: int)

  const SCHEMA_VERSION: int := 1
  const RequiredChecks: seq<string> := ["data_availability", "distinctness", "cost_after_edge"]
  const Pass: string := "PASS"
  const Fail: string := "FAIL"

  /** The characters that `str.strip` removes. */
  predicate IsSpace(c: char) {
    var n := c as int;
    || 9 <= n <= 13 || 28 <= n <= 32 || n == 0x85 || n == 0xA0 || n == 0x1680 || 0x2000 <= n <= 0x200A
    || n == 0x2028 || n == 0x2029 || n == 0x202F || n == 0x205F || n == 0x3000
  }

  /** Something is left after stripping white space. */
  predicate NonBlank(s: string) {
    exists i :: 0 <= i < |s| && !IsSpace(s[i])
  }

  predicate ValidStatus(s: string) {
    s == Pass || s == Fail
  }

  /** `_required_text`. */
  function RequiredText(payload: map<string, Json>, key: string): Result<string, Error> {
    if key in payload && payload[key].JString? && NonBlank(payload[key].s) then Ok(payload[key].s)
    else Err(MissingText(key))
  }

  function Details(payload: map<string, Json>): Json {
    if "details" in payload then payload["details"] else JObject(map[])
  }

  /** `_check_from_dict`. */
  function CheckFromDict(payload: Json): Result<Check, Error> {
    if !payload.JObject? then Err(CheckNotAnObject)
    else
      var name := RequiredText(payload.fields, "name");
      var status := RequiredText(payload.fields, "status");
      var reason := RequiredText(payload.fields, "reason");
      if name.Err? then Err(name.error)
      else if status.Err? then Err(status.error)
      else if reason.Err? then Err(reason.error)
      else if !ValidStatus(status.value) then Err(UnknownStatus(status.value))
      else if !Details(payload.fields).JObject? then Err(DetailsNotAnObject)
      else Ok(Check(name.value, status.value, reason.value, Details(payload.fields).fields))
  }

  /** All the checks, or the error of the first bad one. */
  function ChecksFromList(items: seq<Json>): Result<seq<Check>, Error> {
    if |items| == 0 then Ok([])
    else
      var before := ChecksFromList(items[..|items| - 1]);
      var last := CheckFromDict(items[|items| - 1]);
      if before.Err? then before
      else if last.Err? then Err(last.error)
      else Ok(before.value + [last.value])
  }

  ghost predicate DistinctNames(checks: seq<Check>) {
    forall i, j :: 0 <= i < j < |checks| ==> checks[i].name != checks[j].name
  }

  function ResultFields(payload: map<string, Json>, checks: seq<Check>): Result<FeasibilityResult, Error> {
    var batch := RequiredText(payload, "batch_id");
    var candidate := RequiredText(payload, "candidate_id");
    var dir := RequiredText(payload, "candidate_dir");
    var hypothesis := RequiredText(payload, "hypothesis_id");
    var family := RequiredText(payload, "family_id");
    if "schema_version" in payload && payload["schema_version"] != JInt(SCHEMA_VERSION) then Err(UnsupportedVersion)
    else if batch.Err? then Err(batch.error)
    else if candidate.Err? then Err(candidate.error)
    else if dir.Err? then Err(dir.error)
    else if hypothesis.Err? then Err(hypothesis.error)
    else if family.Err? then Err(family.error)
    else Ok(FeasibilityResult(batch.value, candidate.value, dir.value, hypothesis.value, family.value, checks,
                              SCHEMA_VERSION))
  }

  /** The check that must not repeat an earlier one. */
  predicate Repeats(checks: seq<Check>, i: nat)
    requires i < |checks|
  {
    exists j :: 0 <= j < i && checks[j].name == checks[i].name
  }

  /** What reading a payload gives: the first error in the order the reader looks, or the result. */
  ghost predicate Reads(payload: Json, r: Result<FeasibilityResult, Error>) {
    if !payload.JObject? then r == Err(NotAnObject)
    else if "checks" !in payload.fields || !payload.fields["checks"].JList? then r == Err(ChecksNotAList)
    else
      var checks := ChecksFromList(payload.fields["checks"].items);
      if checks.Err? then r == Err(checks.error)
      else if DistinctNames(checks.value) then r == ResultFields(payload.fields, checks.value)
      else exists i :: 0 <= i < |checks.value| && Repeats(checks.value, i)
                       && DistinctNames(checks.value[..i]) && r == Err(DuplicateCheck(checks.value[i].name))
  }

  /** `result_from_dict`. */
  method ResultFromDict(payload: Json) returns (r: Result<FeasibilityResult, Error>)
    ensures Reads(payload, r)
  {
    if !payload.JObject? {
      return Err(NotAnObject);
    }
    if "checks" !in payload.fields || !payload.fields["checks"].JList? {
      return Err(ChecksNotAList);
    }
    var parsed := ChecksFromList(payload.fields["checks"].items);
    if parsed.Err? {
      return Err(parsed.error);
    }
    var checks := parsed.value;
    var seen: set<string> := {};
    for i := 0 to |checks|
      invariant seen == set j | 0 <= j < i :: checks[j].name
      invariant DistinctNames(checks[..i])
    {
      if checks[i].name in seen {
        assert Repeats(checks, i);
        return Err(DuplicateCheck(checks[i].name));
      }
      seen := seen + {checks[i].name};
    }
    assert checks[..|checks|] == checks;
    r := ResultFields(payload.fields, checks);
  }

  // ----- evaluation

  /** Where `by_name` finds a check: the last one of that name, or -1. */
  function LastNamed(checks: seq<Check>, name: string): (r: int)
    ensures -1 <= r < |checks| && (r >= 0 ==> checks[r].name == name)
    ensures forall j :: r < j < |checks| ==> checks[j].name != name
  {
    if |checks| == 0 then -1
    else if checks[|checks| - 1].name == name then |checks| - 1
    else LastNamed(checks[..|checks| - 1], name)
  }

  predicate RequiredPasses(checks: seq<Check>, name: string) {
    var i := LastNamed(checks, name);
    i >= 0 && checks[i].status == Pass
  }

  predicate PowerFails(checks: seq<Check>) {
    exists i :: 0 <= i < |checks| && checks[i].name == "statistical_power" && checks[i].status != Pass
  }

  /** `evaluate_stage2_result`. */
  function Evaluate(r: FeasibilityResult): string {
    if PowerFails(r.checks) then Fail
    else if exists k :: 0 <= k < |RequiredChecks| && !RequiredPasses(r.checks, RequiredChecks[k]) then Fail
    else Pass
  }

  /** A check of this name passed, and none of this name comes after it. */
  ghost predicate HasPassed(checks: seq<Check>, name: string) {
    exists i :: 0 <= i < |checks| && checks[i].name == name && checks[i].status == Pass
                && forall j :: i < j < |checks| ==> checks[j].name != name
  }

  /** Every required check is there and passed, and no power check failed. */
  ghost predicate MeetsAll(r: FeasibilityResult) {
    && (forall i :: 0 <= i < |r.checks| && r.checks[i].name == "statistical_power" ==> r.checks[i].status == Pass)
    && (forall k :: 0 <= k < |RequiredChecks| ==> HasPassed(r.checks, RequiredChecks[k]))
  }

  lemma RequiredPassesMeans(checks: seq<Check>, name: string)
    ensures RequiredPasses(checks, name) <==> HasPassed(checks, name)
  {
    if HasPassed(checks, name) {
      var i :| 0 <= i < |checks| && checks[i].name == name && checks[i].status == Pass
        && forall j :: i < j < |checks| ==> checks[j].name != name;
      assert LastNamed(checks, name) == i;
    }
  }

  /** PASS means that all is met, and the only other answer is FAIL. */
  lemma PassMeans(r: FeasibilityResult)
    ensures Evaluate(r) == Pass <==> MeetsAll(r)
    ensures Evaluate(r) == Fail <==> !MeetsAll(r)
  {
    forall k | 0 <= k < |RequiredChecks|
      ensures RequiredPasses(r.checks, RequiredChecks[k]) <==> HasPassed(r.checks, RequiredChecks[k])
    {
      RequiredPassesMeans(r.checks, RequiredChecks[k]);
    }
    hide RequiredPasses, HasPassed;
  }

  // ----- the JSON form

  function CheckToDict(c: Check): Json {
    var core := map["name" := JString(c.name), "status" := JString(c.status), "reason" := JString(c.reason)];
    JObject(if c.details == map[] then core else core["details" := JObject(c.details)])
  }

  function ChecksToList(checks: seq<Check>): (r: seq<Json>)
    ensures |r| == |checks| && forall i :: 0 <= i < |r| ==> r[i] == CheckToDict(checks[i])
  {
    if |checks| == 0 then [] else ChecksToList(checks[..|checks| - 1]) + [CheckToDict(checks[|checks| - 1])]
  }

  /** `result_to_dict`. */
  function ToDict(r: FeasibilityResult): Json {
    JObject(map[
              "schema_version" := JInt(r.schemaVersion),
              "batch_id" := JString(r.batchId),
              "candidate_id" := JString(r.candidateId),
              "candidate_dir" := JString(r.candidateDir),
              "hypothesis_id" := JString(r.hypothesisId),
              "family_id" := JString(r.familyId),
              "checks" := JList(ChecksToList(r.checks)),
              "stage2_status" := JString(Evaluate(r))
            ])
  }

  ghost predicate WellFormedCheck(c: Check) {
    NonBlank(c.name) && NonBlank(c.reason) && ValidStatus(c.status)
  }

  ghost predicate WellFormed(r: FeasibilityResult) {
    && r.schemaVersion == SCHEMA_VERSION
    && NonBlank(r.batchId) && NonBlank(r.candidateId) && NonBlank(r.candidateDir)
    && NonBlank(r.hypothesisId) && NonBlank(r.familyId)
    && (forall i :: 0 <= i < |r.checks| ==> WellFormedCheck(r.checks[i]))
    && DistinctNames(r.checks)
  }

  lemma CheckRoundTrip(c: Check)
    ensures CheckFromDict(CheckToDict(c)) == Ok(c) <==> WellFormedCheck(c)
  {
    var core := map["name" := JString(c.name), "status" := JString(c.status), "reason" := JString(c.reason)];
    assert CheckToDict(c).fields["name"] == JString(c.name);
    assert CheckToDict(c).fields["status"] == JString(c.status);
    assert CheckToDict(c).fields["reason"] == JString(c.reason);
    assert Details(CheckToDict(c).fields) == JObject(c.details);
    if ValidStatus(c.status) {
      assert !IsSpace(c.status[0]);
    }
  }

  lemma {:induction false} ChecksRoundTrip(checks: seq<Check>)
    ensures ChecksFromList(ChecksToList(checks)) == Ok(checks) <==>
      forall i :: 0 <= i < |checks| ==> WellFormedCheck(checks[i])
    ensures ChecksFromList(ChecksToList(checks)).Ok? ==>
      ChecksFromList(ChecksToList(checks)) == Ok(checks)
  {
    hide CheckToDict, CheckFromDict, WellFormedCheck;
    if |checks| > 0 {
      var n := |checks| - 1;
      ChecksRoundTrip(checks[..n]);
      CheckRoundTrip(checks[n]);
      CheckReadBack(checks[n]);
      assert ChecksToList(checks)[..n] == ChecksToList(checks[..n]);
      assert checks == checks[..n] + [checks[n]];
    }
  }

  lemma CheckReadBack(c: Check)
    ensures CheckFromDict(CheckToDict(c)).Ok? ==> CheckFromDict(CheckToDict(c)) == Ok(c)
  {
    CheckRoundTrip(c);
  }

  lemma WrittenTexts(r: FeasibilityResult)
    ensures ToDict(r).JObject?
    ensures var p := ToDict(r).fields;
      && RequiredText(p, "batch_id") == (if NonBlank(r.batchId) then Ok(r.batchId) else Err(MissingText("batch_id")))
      && RequiredText(p, "candidate_id") ==
           (if NonBlank(r.candidateId) then Ok(r.candidateId) else Err(MissingText("candidate_id")))
      && RequiredText(p, "candidate_dir") ==
           (if NonBlank(r.candidateDir) then Ok(r.candidateDir) else Err(MissingText("candidate_dir")))
      && RequiredText(p, "hypothesis_id") ==
           (if NonBlank(r.hypothesisId) then Ok(r.hypothesisId) else Err(MissingText("hypothesis_id")))
      && RequiredText(p, "family_id") ==
           (if NonBlank(r.familyId) then Ok(r.familyId) else Err(MissingText("family_id")))
  {
    hide NonBlank, ChecksToList, Evaluate;
  }

  lemma WrittenRest(r: FeasibilityResult)
    ensures var p := ToDict(r).fields;
      && "schema_version" in p && p["schema_version"] == JInt(r.schemaVersion)
      && "checks" in p && p["checks"] == JList(ChecksToList(r.checks))
  {
    hide ChecksToList, Evaluate;
  }

  /** Writing a result and reading it back gives the result exactly when it is well formed. */
  lemma RoundTrip(r: FeasibilityResult, back: Result<FeasibilityResult, Error>)
    requires Reads(ToDict(r), back)
    ensures back == Ok(r) <==> WellFormed(r)
  {
    ChecksRoundTrip(r.checks);
    WrittenTexts(r);
    WrittenRest(r);
    hide ToDict, NonBlank, RequiredText, WellFormedCheck, ChecksToList, ChecksFromList, DistinctNames, Repeats;
  }

  lemma {:induction false} ReadChecksWellFormed(items: seq<Json>)
    ensures ChecksFromList(items).Ok? ==>
      forall i :: 0 <= i < |ChecksFromList(items).value| ==> WellFormedCheck(ChecksFromList(items).value[i])
  {
    if |items| > 0 {
      ReadChecksWellFormed(items[..|items| - 1]);
    }
  }

  lemma ReadFieldsWellFormed(payload: map<string, Json>, checks: seq<Check>)
    ensures ResultFields(payload, checks).Ok? ==>
      var r := ResultFields(payload, checks).value;
      && r.checks == checks && r.schemaVersion == SCHEMA_VERSION
      && NonBlank(r.batchId) && NonBlank(r.candidateId) && NonBlank(r.candidateDir)
      && NonBlank(r.hypothesisId) && NonBlank(r.familyId)
  {
  }

  /** Whatever payload a result was read from, writing and reading it once more changes nothing. */
  lemma ReadingIsStable(payload: Json, r: FeasibilityResult, again: Result<FeasibilityResult, Error>)
    requires Reads(payload, Ok(r)) && Reads(ToDict(r), again)
    ensures again == Ok(r)
  {
    hide ToDict, ChecksFromList, WellFormedCheck, NonBlank, RequiredText, IsSpace;
    ReadChecksWellFormed(payload.fields["checks"].items);
    RoundTrip(r, again);
    hide ToDict, ChecksFromList, WellFormedCheck, NonBlank;
    ReadFieldsWellFormed(payload.fields, r.checks);
  }

  lemma WrittenStrings(r: FeasibilityResult)
    ensures var p := ToDict(r).fields;
      && {"batch_id", "candidate_id", "candidate_dir", "hypothesis_id", "family_id"} <= p.Keys
      && p["batch_id"] == JString(r.batchId) && p["candidate_id"] == JString(r.candidateId)
      && p["candidate_dir"] == JString(r.candidateDir) && p["hypothesis_id"] == JString(r.hypothesisId)
      && p["family_id"] == JString(r.familyId)
  {
    hide ChecksToList, Evaluate;
  }

  /** Equal written forms come from equal results. */
  lemma ToDictInjective(r: FeasibilityResult, s: FeasibilityResult)
    requires ToDict(r) == ToDict(s)
    ensures r == s
  {
    WrittenStrings(r);
    WrittenStrings(s);
    WrittenRest(r);
    WrittenRest(s);
    hide ToDict, CheckToDict;
    var a, b := ChecksToList(r.checks), ChecksToList(s.checks);
    assert a == b;
    forall i | 0 <= i < |r.checks|
      ensures r.checks[i] == s.checks[i]
    {
      assert a[i] == b[i];
      CheckToDictInjective(r.checks[i], s.checks[i]);
    }
  }

  lemma CheckToDictInjective(c: Check, d: Check)
    requires CheckToDict(c) == CheckToDict(d)
    ensures c == d
  {
    var a, b := CheckToDict(c).fields, CheckToDict(d).fields;
    assert a["name"] == b["name"] && a["status"] == b["status"] && a["reason"] == b["reason"];
    assert Details(a) == Details(b) && Details(a) == JObject(c.details) && Details(b) == JObject(d.details);
  }
}
