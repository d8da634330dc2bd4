/** Checkpoint 1: trial counts per family from the registry, and the automatic gate. */
module Checkpoint1 {
  import opened Wrappers

  /** A parsed registry row; artifact is the normalised path text. */
  datatype RegistryRow = RegistryRow(familyId: string, trials: nat, artifact: string, outcome: string,
                                     override: Option<nat>)

  /** `totals.get(family, 0)`. */
  function Total(totals: map<string, nat>, family: string): nat {
    if family in totals then totals[family] else 0
  }

  function Max(a: nat, b: nat): nat {
    if a < b then b else a
  }

  /** A family's running count after the rows: an override replaces it, other rows can only raise it. */
  function Running(rows: seq<RegistryRow>, family: string): nat {
    if |rows| == 0 then 0
    else
      var n := |rows| - 1;
      var before := Running(rows[..n], family);
      if rows[n].familyId != family then before
      else if rows[n].override.Some? then rows[n].override.value
      else Max(before, rows[n].trials)
  }

  /** `_with_family_cumulative_trials`: the count beside each row. */
  method CumulativeTrials(rows: seq<RegistryRow>) returns (counts: seq<nat>)
    ensures |counts| == |rows|
    ensures forall i :: 0 <= i < |rows| ==> counts[i] == Running(rows[..i + 1], rows[i].familyId)
  {
    var totals: map<string, nat> := map[];
    counts := [];
    for i := 0 to |rows|
      invariant |counts| == i
      invariant forall family :: Total(totals, family) == Running(rows[..i], family)
      invariant forall k :: 0 <= k < i ==> counts[k] == Running(rows[..k + 1], rows[k].familyId)
    {
      var row := rows[i];
      assert rows[..i + 1][..i] == rows[..i];
      var current := Total(totals, row.familyId);
      var cumulative := if row.override.Some? then row.override.value else Max(current, row.trials);
      totals := totals[row.familyId := cumulative];
      counts := counts + [cumulative];
    }
  }

  /** The row at j is the last override of the family, or j is -1 and there is none. */
  ghost predicate LastOverride(rows: seq<RegistryRow>, family: string, j: int) {
    && -1 <= j < |rows|
    && (j >= 0 ==> rows[j].familyId == family && rows[j].override.Some?)
    && forall k :: j < k < |rows| && rows[k].familyId == family ==> rows[k].override.None?
  }

  /** The value is the greatest of the last override and the family's trial counts since. */
  ghost predicate GreatestSince(rows: seq<RegistryRow>, family: string, j: int, value: nat)
    requires LastOverride(rows, family, j)
  {
    && (j >= 0 ==> rows[j].override.value <= value)
    && (forall k :: j < k < |rows| && rows[k].familyId == family ==> rows[k].trials <= value)
    && (|| (j >= 0 && value == rows[j].override.value)
        || (j < 0 && value == 0)
        || exists k :: j < k < |rows| && rows[k].familyId == family && value == rows[k].trials)
  }

  lemma {:induction false} RunningMeans(rows: seq<RegistryRow>, family: string, j: int)
    requires LastOverride(rows, family, j)
    ensures GreatestSince(rows, family, j, Running(rows, family))
  {
    if |rows| > 0 {
      var n := |rows| - 1;
      if j < n {
        RunningMeans(rows[..n], family, j);
        if exists k :: j < k < n && rows[..n][k].familyId == family && Running(rows[..n], family) == rows[..n][k].trials {
          var k :| j < k < n && rows[..n][k].familyId == family && Running(rows[..n], family) == rows[..n][k].trials;
          assert rows[k] == rows[..n][k];
        }
      }
    }
  }

  /** Without overrides the running count never falls. */
  lemma {:induction false} RunningGrows(rows: seq<RegistryRow>, family: string, i: nat, k: nat)
    requires i <= k <= |rows| && forall r :: r in rows ==> r.override.None?
    ensures Running(rows[..i], family) <= Running(rows[..k], family)
    decreases k
  {
    if i < k {
      RunningGrows(rows, family, i, k - 1);
      assert rows[..k][..k - 1] == rows[..k - 1];
      assert rows[k - 1] in rows;
    }
  }

  predicate Contains(text: string, needle: string) {
    needle <= text || (|text| > 0 && Contains(text[1..], needle))
  }

  /** The last row of the family whose artifact names the summary, or -1. */
  function LastRow(rows: seq<RegistryRow>, family: string, needle: string): (r: int)
    ensures -1 <= r < |rows|
    ensures r >= 0 ==> rows[r].familyId == family && Contains(rows[r].artifact, needle)
    ensures forall k :: r < k < |rows| && rows[k].familyId == family ==> !Contains(rows[k].artifact, needle)
  {
    if |rows| == 0 then -1
    else
      var n := |rows| - 1;
      if rows[n].familyId == family && Contains(rows[n].artifact, needle) then n
      else LastRow(rows[..n], family, needle)
  }

  lemma EverythingContainsNothing(text: string)
    ensures Contains(text, "")
  {
  }

  /** `_expected_trials`; needle is the normalised summary path. */
  method ExpectedTrials(rows: seq<RegistryRow>, family: string, needle: Option<string>) returns (r: Option<nat>)
    ensures r == Expected(rows, family, needle)
  {
    var counts := CumulativeTrials(rows);
    var last := LastRow(rows, family, "");
    if last < 0 {
      return None;
    }
    if needle.Some? {
      var exact := LastRow(rows, family, needle.value);
      if exact >= 0 {
        return Some(counts[exact]);
      }
    }
    r := Some(counts[last]);
  }

  /** The count at the last row naming the summary, else at the family's last row. */
  function Expected(rows: seq<RegistryRow>, family: string, needle: Option<string>): Option<nat> {
    var last := LastRow(rows, family, "");
    var exact := if needle.Some? then LastRow(rows, family, needle.value) else -1;
    if last < 0 then None
    else if exact >= 0 then Some(Running(rows[..exact + 1], family))
    else Some(Running(rows[..last + 1], family))
  }

  datatype FamilyEntry = FamilyEntry(familyId: string, cumulative: nat, status: string, artifact: string,
                                     kUsed: int, kLimit: int)

  function Budget(budgets: map<string, (int, int)>, family: string): (int, int) {
    if family in budgets then budgets[family] else (0, 0)
  }

  /** What the registry holds for a family: its last row, or only its budget. */
  ghost predicate EntryFor(rows: seq<RegistryRow>, budgets: map<string, (int, int)>, family: string, e: FamilyEntry) {
    && e.familyId == family && (e.kUsed, e.kLimit) == Budget(budgets, family)
    && var last := LastRow(rows, family, "");
       if last >= 0 then e.cumulative == Running(rows[..last + 1], family)
                         && e.status == rows[last].outcome && e.artifact == rows[last].artifact
       else e.cumulative == 0 && e.status == "" && e.artifact == ""
  }

  function Families(rows: seq<RegistryRow>): set<string> {
    set r | r in rows :: r.familyId
  }

  /** The loop over the rows. */
  method EntriesFromRows(rows: seq<RegistryRow>, budgets: map<string, (int, int)>) returns (families: map<string, FamilyEntry>)
    ensures families.Keys == Families(rows)
    ensures forall family :: family in families ==> EntryFor(rows, budgets, family, families[family])
  {
    var counts := CumulativeTrials(rows);
    families := map[];
    for i := 0 to |rows|
      invariant RowEntries(rows[..i], budgets, families)
    {
      EntriesStep(rows, i, budgets, families);
      var row := rows[i];
      var (kUsed, kLimit) := Budget(budgets, row.familyId);
      families := families[row.familyId := FamilyEntry(row.familyId, counts[i], row.outcome, row.artifact, kUsed, kLimit)];
    }
    assert rows[..|rows|] == rows;
    hide EntryFor;
  }

  ghost predicate RowEntries(rows: seq<RegistryRow>, budgets: map<string, (int, int)>, families: map<string, FamilyEntry>) {
    && families.Keys == Families(rows)
    && forall family :: family in families ==> RowEntry(rows, budgets, family, families[family])
  }

  lemma EntriesStep(rows: seq<RegistryRow>, i: nat, budgets: map<string, (int, int)>, families: map<string, FamilyEntry>)
    requires i < |rows| && RowEntries(rows[..i], budgets, families)
    ensures var row := rows[i];
      RowEntries(rows[..i + 1], budgets,
                 families[row.familyId := FamilyEntry(row.familyId, Running(rows[..i + 1], row.familyId), row.outcome,
                                                      row.artifact, Budget(budgets, row.familyId).0,
                                                      Budget(budgets, row.familyId).1)])
  {
    FamiliesSnoc(rows, i);
    EntryAdded(rows, i, budgets);
    forall family | family in families && family != rows[i].familyId
      ensures RowEntry(rows[..i + 1], budgets, family, families[family])
    {
      EntryKept(rows, i, budgets, family, families[family]);
    }
    hide RowEntry, Families, Running;
  }

  lemma FamiliesSnoc(rows: seq<RegistryRow>, i: nat)
    requires i < |rows|
    ensures Families(rows[..i + 1]) == Families(rows[..i]) + {rows[i].familyId}
  {
    assert rows[..i + 1] == rows[..i] + [rows[i]];
  }

  ghost predicate RowEntry(rows: seq<RegistryRow>, budgets: map<string, (int, int)>, family: string, e: FamilyEntry) {
    LastRow(rows, family, "") >= 0 && EntryFor(rows, budgets, family, e)
  }

  /** `family_registry_from_text`, after parsing. */
  method FamilyRegistry(rows: seq<RegistryRow>, budgets: map<string, (int, int)>) returns (families: map<string, FamilyEntry>)
    ensures families.Keys == Families(rows) + budgets.Keys
    ensures forall family :: family in families ==> EntryFor(rows, budgets, family, families[family])
  {
    families := EntriesFromRows(rows, budgets);
    forall family | family in budgets.Keys - families.Keys
      ensures EntryFor(rows, budgets, family, FamilyEntry(family, 0, "", "", budgets[family].0, budgets[family].1))
    {
      BudgetOnly(rows, budgets, family);
    }
    hide EntryFor, Families;
    families := families + map family | family in budgets.Keys - families.Keys ::
      FamilyEntry(family, 0, "", "", budgets[family].0, budgets[family].1);
  }

  lemma BudgetOnly(rows: seq<RegistryRow>, budgets: map<string, (int, int)>, family: string)
    requires family !in Families(rows) && family in budgets
    ensures EntryFor(rows, budgets, family, FamilyEntry(family, 0, "", "", budgets[family].0, budgets[family].1))
  {
    assert forall i :: 0 <= i < |rows| ==> rows[i].familyId in Families(rows);
  }

  lemma EntryKept(rows: seq<RegistryRow>, i: nat, budgets: map<string, (int, int)>, family: string, e: FamilyEntry)
    requires i < |rows| && rows[i].familyId != family
    requires RowEntry(rows[..i], budgets, family, e)
    ensures RowEntry(rows[..i + 1], budgets, family, e)
  {
    assert rows[..i + 1][..i] == rows[..i];
    var last := LastRow(rows[..i], family, "");
    assert LastRow(rows[..i + 1], family, "") == last;
    assert rows[..i][..last + 1] == rows[..i + 1][..last + 1];
  }

  lemma EntryAdded(rows: seq<RegistryRow>, i: nat, budgets: map<string, (int, int)>)
    requires i < |rows|
    ensures var family := rows[i].familyId;
      RowEntry(rows[..i + 1], budgets, family,
               FamilyEntry(family, Running(rows[..i + 1], family), rows[i].outcome, rows[i].artifact,
                           Budget(budgets, family).0, Budget(budgets, family).1))
  {
    EverythingContainsNothing(rows[i].artifact);
    assert LastRow(rows[..i + 1], rows[i].familyId, "") == i;
    assert rows[..i + 1][..i + 1] == rows[..i + 1];
  }

  /** The registry's count for a family is the one expected of a summary without a path of its own. */
  lemma RegistryAgreesWithExpected(rows: seq<RegistryRow>, budgets: map<string, (int, int)>, family: string, e: FamilyEntry)
    requires EntryFor(rows, budgets, family, e)
    ensures Expected(rows, family, None) == if LastRow(rows, family, "") >= 0 then Some(e.cumulative) else None
  {
  }

  // ----- the gate

  datatype Verdict = PASS | FAIL | NEEDS_HUMAN

  /** A number as the summary file can hold it. */
  datatype Float = Finite(x: real) | PosInf | NegInf | NaN

  /** `<=` on floats: nothing compares with NaN. */
  predicate Le(a: Float, b: Float) {
    match (a, b)
    case (NaN, _) => false
    case (_, NaN) => false
    case (NegInf, _) => true
    case (_, PosInf) => true
    case (Finite(x), Finite(y)) => x <= y
    case _ => false
  }

  function Plus(a: Float, x: real): Float {
    if a.Finite? then Finite(a.x + x) else a
  }

  /** Where a contract size comes from: a record, perhaps naming its exchange, or something else. */
  datatype Source = Record(exchange: Option<string>) | NotARecord

  /** The parts of a Stage 3 summary the gate reads; a missing field is one that is absent or of the wrong type. */
  datatype Summary = Summary(familyId: string, familyTrials: Option<int>, cpcvTrials: Option<int>, leakPassed: Option<bool>,
                             dsr: Option<Float>, psr: Option<Float>, idealizedFill: Option<bool>,
                             portable: Option<bool>, promotion: Option<bool>,
                             ctValAuthoritative: Option<bool>, ctValSources: map<string, Source>,
                             venue: Option<string>)

  function CheckTrials(s: Summary, expected: Option<nat>): Verdict {
    if expected.None? then FAIL
    else if s.familyTrials != Some(expected.value) || s.cpcvTrials != s.familyTrials then FAIL
    else PASS
  }

  function CheckLeak(s: Summary): Verdict {
    if s.leakPassed == Some(true) then PASS else FAIL
  }

  function CheckOrder(s: Summary): Verdict {
    if s.dsr.None? || s.psr.None? then NEEDS_HUMAN
    else if Le(s.dsr.value, Plus(s.psr.value, 0.000000000001)) then PASS
    else FAIL
  }

  function CheckIdealized(s: Summary): Verdict {
    if s.idealizedFill == Some(false) then PASS
    else if s.idealizedFill == Some(true) then FAIL
    else NEEDS_HUMAN
  }

  function CheckPortable(s: Summary): Verdict {
    if s.portable == Some(true) then PASS
    else if s.portable == Some(false) && s.promotion == Some(false) then PASS
    else if s.portable == Some(false) && s.promotion == Some(true) then FAIL
    else NEEDS_HUMAN
  }

  function CheckVenue(s: Summary): Verdict {
    if s.ctValAuthoritative != Some(true) then FAIL
    else if s.ctValSources == map[] then NEEDS_HUMAN
    else if s.venue.Some? && exists symbol :: symbol in s.ctValSources && s.ctValSources[symbol].Record?
                                              && s.ctValSources[symbol].exchange != s.venue then FAIL
    else PASS
  }

  function CheckThreshold(s: Summary): Verdict {
    if s.dsr.None? || s.psr.None? then NEEDS_HUMAN
    else if Le(Finite(0.95), s.dsr.value) && Le(Finite(0.95), s.psr.value) then PASS
    else FAIL
  }

  /** `evaluate_summary`. */
  function Checks(s: Summary, expected: Option<nat>): seq<Verdict> {
    [CheckTrials(s, expected), CheckLeak(s), CheckOrder(s), CheckIdealized(s), CheckPortable(s), CheckVenue(s),
     CheckThreshold(s)]
  }

  /** `evaluate_checkpoint1_result`. */
  function Evaluate(checks: seq<Verdict>): Verdict {
    if FAIL in checks then FAIL
    else if NEEDS_HUMAN in checks then NEEDS_HUMAN
    else PASS
  }

  /** Turning one verdict from FAIL to NEEDS_HUMAN to PASS never makes the outcome worse. */
  function Rank(v: Verdict): nat {
    match v case FAIL => 0 case NEEDS_HUMAN => 1 case PASS => 2
  }

  lemma EvaluateIsWorst(checks: seq<Verdict>)
    ensures forall i :: 0 <= i < |checks| ==> Rank(Evaluate(checks)) <= Rank(checks[i])
    ensures checks != [] ==> Evaluate(checks) in checks
  {
    forall i | 0 <= i < |checks|
      ensures Rank(Evaluate(checks)) <= Rank(checks[i])
    {
      assert checks[i] in checks;
    }
    if checks != [] && Evaluate(checks) == PASS {
      assert checks[0] in checks;
    }
  }

  /** What an automatic pass guarantees about the summary and the registry. */
  lemma PassMeans(s: Summary, expected: Option<nat>)
    ensures Evaluate(Checks(s, expected)) == PASS <==>
      && expected.Some? && s.familyTrials == s.cpcvTrials == Some(expected.value)
      && s.leakPassed == Some(true)
      && s.dsr.Some? && s.psr.Some?
      && Le(Finite(0.95), s.dsr.value) && Le(Finite(0.95), s.psr.value)
      && Le(s.dsr.value, Plus(s.psr.value, 0.000000000001))
      && s.idealizedFill == Some(false)
      && (s.portable == Some(true) || (s.portable == Some(false) && s.promotion == Some(false)))
      && s.ctValAuthoritative == Some(true) && s.ctValSources != map[]
      && (s.venue.Some? ==> forall symbol :: symbol in s.ctValSources && s.ctValSources[symbol].Record? ==>
            s.ctValSources[symbol].exchange == s.venue)
  {
    var checks := Checks(s, expected);
    PassIsUnanimous(checks);
    assert checks[0] == CheckTrials(s, expected) && checks[1] == CheckLeak(s) && checks[2] == CheckOrder(s)
           && checks[3] == CheckIdealized(s) && checks[4] == CheckPortable(s) && checks[5] == CheckVenue(s)
           && checks[6] == CheckThreshold(s);
    hide Evaluate;
  }

  /** What an automatic failure found; with PASS this says exactly when a human is asked. */
  lemma FailMeans(s: Summary, expected: Option<nat>)
    ensures Evaluate(Checks(s, expected)) == FAIL <==>
      || expected.None? || s.familyTrials != Some(expected.value) || s.cpcvTrials != Some(expected.value)
      || s.leakPassed != Some(true)
      || (s.dsr.Some? && s.psr.Some? && !Le(s.dsr.value, Plus(s.psr.value, 0.000000000001)))
      || (s.dsr.Some? && s.psr.Some? && !(Le(Finite(0.95), s.dsr.value) && Le(Finite(0.95), s.psr.value)))
      || s.idealizedFill == Some(true)
      || (s.portable == Some(false) && s.promotion == Some(true))
      || s.ctValAuthoritative != Some(true)
      || (s.venue.Some? && exists symbol :: symbol in s.ctValSources && s.ctValSources[symbol].Record?
                                            && s.ctValSources[symbol].exchange != s.venue)
  {
    var checks := Checks(s, expected);
    assert FAIL in checks <==>
      CheckTrials(s, expected) == FAIL || CheckLeak(s) == FAIL || CheckOrder(s) == FAIL || CheckIdealized(s) == FAIL
      || CheckPortable(s) == FAIL || CheckVenue(s) == FAIL || CheckThreshold(s) == FAIL;
    if s.venue.Some? && s.ctValSources == map[] {
      assert forall symbol :: symbol !in s.ctValSources;
    }
  }

  /** t has whatever s has, and may have more of what a human would supply. */
  ghost predicate FilledIn(s: Summary, t: Summary) {
    && t == s.(dsr := t.dsr, psr := t.psr, idealizedFill := t.idealizedFill, portable := t.portable,
               promotion := t.promotion, ctValSources := t.ctValSources)
    && (s.dsr.Some? ==> t.dsr == s.dsr) && (s.psr.Some? ==> t.psr == s.psr)
    && (s.idealizedFill.Some? ==> t.idealizedFill == s.idealizedFill)
    && (s.portable.Some? ==> t.portable == s.portable) && (s.promotion.Some? ==> t.promotion == s.promotion)
    && (s.ctValSources != map[] ==> t.ctValSources == s.ctValSources)
  }

  /** A failure is final: nothing that is only missing could have turned it. */
  lemma FailIsFinal(s: Summary, t: Summary, expected: Option<nat>)
    requires FilledIn(s, t) && Evaluate(Checks(s, expected)) == FAIL
    ensures Evaluate(Checks(t, expected)) == FAIL
  {
    FailMeans(s, expected);
    FailMeans(t, expected);
    hide Evaluate, Checks, Le, Plus;
    if s.ctValSources == map[] {
      assert forall symbol :: symbol !in s.ctValSources;
    }
  }

  lemma PassIsUnanimous(checks: seq<Verdict>)
    ensures Evaluate(checks) == PASS <==> forall i :: 0 <= i < |checks| ==> checks[i] == PASS
  {
    EvaluateIsWorst(checks);
    if Evaluate(checks) == PASS {
      forall i | 0 <= i < |checks|
        ensures checks[i] == PASS
      {
        assert Rank(PASS) <= Rank(checks[i]);
      }
    }
  }

  /** A pass leaves neither number NaN, and an infinite DSR only beside an infinite PSR. */
  lemma PassIsComparable(s: Summary, expected: Option<nat>)
    requires Evaluate(Checks(s, expected)) == PASS
    ensures s.dsr.Some? && s.psr.Some?
    ensures s.dsr.value.Finite? || (s.dsr.value.PosInf? && s.psr.value.PosInf?)
    ensures s.psr.value.Finite? || s.psr.value.PosInf?
  {
    PassMeans(s, expected);
  }
}
