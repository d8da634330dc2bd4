/** From two signal tables to the validation conclusion. */
module Gate {
  import opened Wrappers
  import opened Sorting

  datatype SignalRow = SignalRow(datetime: string, instId: string, side: string)

  datatype Mismatch =
    | MissingInProject(index: nat)
    | MissingInReference(index: nat)
    | ValueMismatch(field: string, index: nat, project: string, reference: string)
    | QuoteMismatch(field: string, index: nat)

  // ----- comparing signals

  function LowerSides(signals: seq<SignalRow>): (r: seq<SignalRow>)
    ensures |r| == |signals|
    ensures forall i :: 0 <= i < |r| ==> r[i] == signals[i].(side := Lower(signals[i].side))
  {
    if |signals| == 0 then []
    else LowerSides(signals[..|signals| - 1]) + [signals[|signals| - 1].(side := Lower(signals[|signals| - 1].side))]
  }

  /** By datetime, then instrument, then side. */
  predicate RowLe(a: SignalRow, b: SignalRow) {
    if a.datetime != b.datetime then StringLe(a.datetime, b.datetime)
    else if a.instId != b.instId then StringLe(a.instId, b.instId)
    else StringLe(a.side, b.side)
  }

  function ByColumns(): (SignalRow, SignalRow) -> bool {
    (a: SignalRow, b: SignalRow) => RowLe(a, b)
  }

  /** `_normalize_signals`. */
  function Normalized(signals: seq<SignalRow>): seq<SignalRow> {
    Sort(LowerSides(signals), ByColumns())
  }

  lemma RowLeTotal(a: SignalRow, b: SignalRow)
    ensures RowLe(a, b) || RowLe(b, a)
    ensures RowLe(a, b) && RowLe(b, a) ==> a == b
  {
    StringLeTotal(a.datetime, b.datetime);
    StringLeTotal(a.instId, b.instId);
    StringLeTotal(a.side, b.side);
  }

  lemma RowLeTransitive(a: SignalRow, b: SignalRow, c: SignalRow)
    requires RowLe(a, b) && RowLe(b, c)
    ensures RowLe(a, c)
  {
    hide StringLe;
    StringLeTotal(a.datetime, b.datetime);
    StringLeTotal(a.instId, b.instId);
    if a.datetime == b.datetime == c.datetime {
      if a.instId == b.instId == c.instId {
        StringLeTransitive(a.side, b.side, c.side);
      } else if a.instId != b.instId && b.instId != c.instId {
        StringLeTransitive(a.instId, b.instId, c.instId);
      }
    } else if a.datetime != b.datetime && b.datetime != c.datetime {
      StringLeTransitive(a.datetime, b.datetime, c.datetime);
    }
  }

  lemma ByColumnsOrders()
    ensures TotalPreorder(ByColumns()) && Antisymmetric(ByColumns())
  {
    forall a, b
      ensures ByColumns()(a, b) || ByColumns()(b, a)
      ensures ByColumns()(a, b) && ByColumns()(b, a) ==> a == b
    {
      RowLeTotal(a, b);
    }
    forall a, b, c | ByColumns()(a, b) && ByColumns()(b, c)
      ensures ByColumns()(a, c)
    {
      RowLeTransitive(a, b, c);
    }
  }

  /** Rows go by datetime, on a tie by instrument, and then by side. */
  ghost predicate RowsInOrder(rows: seq<SignalRow>) {
    forall i, j :: 0 <= i < j < |rows| ==>
      var a, b := rows[i], rows[j];
      && ComesFirst(a.datetime, b.datetime)
      && (a.datetime == b.datetime ==> ComesFirst(a.instId, b.instId))
      && (a.datetime == b.datetime && a.instId == b.instId ==> ComesFirst(a.side, b.side))
  }

  /** The normalised table holds the same signals, sides in lower case, in order. */
  lemma NormalizedMeans(signals: seq<SignalRow>)
    ensures multiset(Normalized(signals)) == multiset(LowerSides(signals)) && RowsInOrder(Normalized(signals))
  {
    ByColumnsOrders();
    SortPermutes(LowerSides(signals), ByColumns());
    SortSorts(LowerSides(signals), ByColumns());
    var rows := Normalized(signals);
    forall i, j | 0 <= i < j < |rows|
      ensures var a, b := rows[i], rows[j];
        && ComesFirst(a.datetime, b.datetime)
        && (a.datetime == b.datetime ==> ComesFirst(a.instId, b.instId))
        && (a.datetime == b.datetime && a.instId == b.instId ==> ComesFirst(a.side, b.side))
    {
      RowLeMeans(rows[i], rows[j]);
      assert ByColumns()(rows[i], rows[j]);
    }
    hide Normalized;
  }

  lemma RowLeMeans(a: SignalRow, b: SignalRow)
    requires RowLe(a, b)
    ensures ComesFirst(a.datetime, b.datetime)
    ensures a.datetime == b.datetime ==> ComesFirst(a.instId, b.instId)
    ensures a.datetime == b.datetime && a.instId == b.instId ==> ComesFirst(a.side, b.side)
  {
    StringLeMeans(a.datetime, b.datetime);
    StringLeMeans(a.instId, b.instId);
    StringLeMeans(a.side, b.side);
    hide StringLe;
  }

  function FieldMismatches(i: nat, p: SignalRow, r: SignalRow): seq<Mismatch> {
    (if p.datetime != r.datetime then [ValueMismatch("datetime", i, p.datetime, r.datetime)] else [])
    + (if p.instId != r.instId then [ValueMismatch("inst_id", i, p.instId, r.instId)] else [])
    + (if p.side != r.side then [ValueMismatch("side", i, p.side, r.side)] else [])
  }

  function QuoteMismatches(i: nat, fields: seq<string>): (r: seq<Mismatch>)
    ensures |r| == |fields| && forall k :: 0 <= k < |r| ==> r[k] == QuoteMismatch(fields[k], i)
  {
    if |fields| == 0 then []
    else QuoteMismatches(i, fields[..|fields| - 1]) + [QuoteMismatch(fields[|fields| - 1], i)]
  }

  /** The mismatches of the i-th rows of two normalised tables; quotes names the quote fields that differ there. */
  function RowMismatches(project: seq<SignalRow>, reference: seq<SignalRow>, quotes: seq<seq<string>>, i: nat): seq<Mismatch> {
    if i >= |project| then [MissingInProject(i)]
    else if i >= |reference| then [MissingInReference(i)]
    else
      FieldMismatches(i, project[i], reference[i]) + (if i < |quotes| then QuoteMismatches(i, quotes[i]) else [])
  }

  function MismatchesUpTo(project: seq<SignalRow>, reference: seq<SignalRow>, quotes: seq<seq<string>>, n: nat): seq<Mismatch> {
    if n == 0 then []
    else MismatchesUpTo(project, reference, quotes, n - 1) + RowMismatches(project, reference, quotes, n - 1)
  }

  function MaxLen(project: seq<SignalRow>, reference: seq<SignalRow>): nat {
    if |project| < |reference| then |reference| else |project|
  }

  /** All the mismatches `_compare_signals` reports. */
  function Mismatches(project: seq<SignalRow>, reference: seq<SignalRow>, quotes: seq<seq<string>>): seq<Mismatch> {
    MismatchesUpTo(Normalized(project), Normalized(reference), quotes, MaxLen(Normalized(project), Normalized(reference)))
  }

  /** The three columns of one pair of rows. */
  method CompareFields(i: nat, p: SignalRow, r: SignalRow) returns (rows: seq<Mismatch>)
    ensures rows == FieldMismatches(i, p, r)
  {
    rows := [];
    if p.datetime != r.datetime {
      rows := rows + [ValueMismatch("datetime", i, p.datetime, r.datetime)];
    }
    if p.instId != r.instId {
      rows := rows + [ValueMismatch("inst_id", i, p.instId, r.instId)];
    }
    if p.side != r.side {
      rows := rows + [ValueMismatch("side", i, p.side, r.side)];
    }
  }

  /** The body of the loop over row positions. */
  method CompareRow(project: seq<SignalRow>, reference: seq<SignalRow>, quotes: seq<seq<string>>, i: nat)
    returns (rows: seq<Mismatch>)
    ensures rows == RowMismatches(project, reference, quotes, i)
  {
    hide FieldMismatches, QuoteMismatches;
    if i >= |project| {
      return [MissingInProject(i)];
    }
    if i >= |reference| {
      return [MissingInReference(i)];
    }
    rows := CompareFields(i, project[i], reference[i]);
    if i < |quotes| {
      rows := rows + QuoteMismatches(i, quotes[i]);
    }
  }

  /** `_compare_signals`. */
  method CompareSignals(project: seq<SignalRow>, reference: seq<SignalRow>, quotes: seq<seq<string>>)
    returns (rows: seq<Mismatch>, failed: bool)
    ensures rows == Mismatches(project, reference, quotes) && failed == (rows != [])
    ensures forall m :: m in rows <==> Differs(Normalized(project), Normalized(reference), quotes, m)
    ensures RowsInOrder(Normalized(project)) && RowsInOrder(Normalized(reference))
  {
    NormalizedMeans(project);
    NormalizedMeans(reference);
    forall m
      ensures m in Mismatches(project, reference, quotes) <==>
        Differs(Normalized(project), Normalized(reference), quotes, m)
    {
      ReportedExactly(project, reference, quotes, m);
    }
    hide Differs, RowsInOrder;
    var projectNorm, referenceNorm := Normalized(project), Normalized(reference);
    hide Normalized, RowMismatches;
    rows := [];
    for i := 0 to MaxLen(projectNorm, referenceNorm)
      invariant rows == MismatchesUpTo(projectNorm, referenceNorm, quotes, i)
    {
      var more := CompareRow(projectNorm, referenceNorm, quotes, i);
      rows := rows + more;
    }
    failed := rows != [];
  }

  // ----- what is reported

  /** The value of a compared column. */
  function Column(row: SignalRow, field: string): Option<string> {
    if field == "datetime" then Some(row.datetime)
    else if field == "inst_id" then Some(row.instId)
    else if field == "side" then Some(row.side)
    else None
  }

  /** A mismatch that is there to report, between two sorted tables. */
  ghost predicate Differs(project: seq<SignalRow>, reference: seq<SignalRow>, quotes: seq<seq<string>>, m: Mismatch) {
    match m
    case MissingInProject(i) => |project| <= i < |reference|
    case MissingInReference(i) => |reference| <= i < |project|
    case ValueMismatch(field, i, a, b) =>
      && i < |project| && i < |reference|
      && Column(project[i], field) == Some(a) && Column(reference[i], field) == Some(b) && a != b
    case QuoteMismatch(field, i) => i < |project| && i < |reference| && i < |quotes| && field in quotes[i]
  }

  function PositionOf(m: Mismatch): nat {
    m.index
  }

  lemma FieldsReported(i: nat, p: SignalRow, r: SignalRow, m: Mismatch)
    ensures m in FieldMismatches(i, p, r) <==>
      m.ValueMismatch? && m.index == i && Column(p, m.field) == Some(m.project) && Column(r, m.field) == Some(m.reference)
      && m.project != m.reference
  {
    assert "datetime"[0] != "inst_id"[0] && "datetime"[0] != "side"[0] && "inst_id"[0] != "side"[0];
    var columns := [ValueMismatch("datetime", i, p.datetime, r.datetime), ValueMismatch("inst_id", i, p.instId, r.instId),
                    ValueMismatch("side", i, p.side, r.side)];
    if m in FieldMismatches(i, p, r) {
      assert m == columns[0] || m == columns[1] || m == columns[2];
    }
  }

  lemma QuotesReported(i: nat, fields: seq<string>, m: Mismatch)
    ensures m in QuoteMismatches(i, fields) <==> m.QuoteMismatch? && m.index == i && m.field in fields
  {
    if m.QuoteMismatch? && m.index == i && m.field in fields {
      var k :| 0 <= k < |fields| && fields[k] == m.field;
      assert QuoteMismatches(i, fields)[k] == m;
    }
  }

  lemma RowReported(project: seq<SignalRow>, reference: seq<SignalRow>, quotes: seq<seq<string>>, i: nat, m: Mismatch)
    requires i < MaxLen(project, reference)
    ensures m in RowMismatches(project, reference, quotes, i) <==>
      PositionOf(m) == i && Differs(project, reference, quotes, m)
  {
    if i < |project| && i < |reference| {
      FieldsReported(i, project[i], reference[i], m);
      if i < |quotes| {
        QuotesReported(i, quotes[i], m);
      }
    }
    hide FieldMismatches, QuoteMismatches, Column;
  }

  lemma {:induction false} ReportedUpTo(project: seq<SignalRow>, reference: seq<SignalRow>, quotes: seq<seq<string>>, n: nat,
                                        m: Mismatch)
    requires n <= MaxLen(project, reference)
    ensures m in MismatchesUpTo(project, reference, quotes, n) <==>
      PositionOf(m) < n && Differs(project, reference, quotes, m)
  {
    if n > 0 {
      var before, last := MismatchesUpTo(project, reference, quotes, n - 1), RowMismatches(project, reference, quotes, n - 1);
      assert MismatchesUpTo(project, reference, quotes, n) == before + last;
      ReportedUpTo(project, reference, quotes, n - 1, m);
      RowReported(project, reference, quotes, n - 1, m);
      hide RowMismatches, Differs, MismatchesUpTo;
    }
  }

  /** Exactly the differences between the sorted tables are reported. */
  lemma ReportedExactly(project: seq<SignalRow>, reference: seq<SignalRow>, quotes: seq<seq<string>>, m: Mismatch)
    ensures m in Mismatches(project, reference, quotes) <==>
      Differs(Normalized(project), Normalized(reference), quotes, m)
  {
    hide Normalized, MismatchesUpTo;
    var p, r := Normalized(project), Normalized(reference);
    ReportedUpTo(p, r, quotes, MaxLen(p, r), m);
  }

  ghost predicate RowEqual(project: seq<SignalRow>, reference: seq<SignalRow>, quotes: seq<seq<string>>, i: nat) {
    i < |project| && i < |reference| && project[i] == reference[i] && (i < |quotes| ==> quotes[i] == [])
  }

  lemma RowMatches(project: seq<SignalRow>, reference: seq<SignalRow>, quotes: seq<seq<string>>, i: nat)
    ensures |RowMismatches(project, reference, quotes, i)| == 0 <==> RowEqual(project, reference, quotes, i)
  {
  }

  lemma {:induction false} NoMismatchUpTo(project: seq<SignalRow>, reference: seq<SignalRow>, quotes: seq<seq<string>>, n: nat)
    ensures |MismatchesUpTo(project, reference, quotes, n)| == 0 <==>
      forall i: nat :: i < n ==> RowEqual(project, reference, quotes, i)
  {
    hide RowMismatches, RowEqual;
    if n > 0 {
      NoMismatchUpTo(project, reference, quotes, n - 1);
      RowMatches(project, reference, quotes, n - 1);
    }
  }

  /** Two tables hold the same signals, each as often, with sides in lower case. */
  ghost predicate SameSignals(project: seq<SignalRow>, reference: seq<SignalRow>) {
    multiset(LowerSides(project)) == multiset(LowerSides(reference))
  }

  /** No quote field differs at a position that both tables have. */
  ghost predicate NoQuoteDiffers(quotes: seq<seq<string>>, n: nat) {
    forall i :: 0 <= i < n && i < |quotes| ==> quotes[i] == []
  }

  lemma AllRowsEqual(p: seq<SignalRow>, r: seq<SignalRow>, quotes: seq<seq<string>>)
    ensures (forall i: nat :: i < MaxLen(p, r) ==> RowEqual(p, r, quotes, i)) <==> p == r && NoQuoteDiffers(quotes, |p|)
  {
    var n := MaxLen(p, r);
    if forall i: nat :: i < n ==> RowEqual(p, r, quotes, i) {
      assert n > 0 ==> RowEqual(p, r, quotes, n - 1);
      assert |p| == |r|;
      forall i: nat | i < |p|
        ensures p[i] == r[i] && (i < |quotes| ==> quotes[i] == [])
      {
        assert RowEqual(p, r, quotes, i);
      }
    }
  }

  /** Equal multisets are sorted into equal tables, and only they. */
  lemma SameSignalsSortAlike(project: seq<SignalRow>, reference: seq<SignalRow>)
    ensures SameSignals(project, reference) <==> Normalized(project) == Normalized(reference)
    ensures |Normalized(project)| == |project|
  {
    ByColumnsOrders();
    SortPermutes(LowerSides(project), ByColumns());
    SortPermutes(LowerSides(reference), ByColumns());
    SortSorts(LowerSides(project), ByColumns());
    SortSorts(LowerSides(reference), ByColumns());
    if SameSignals(project, reference) {
      SortedUnique(Normalized(project), Normalized(reference), ByColumns());
    }
  }

  /** Nothing is reported exactly when the multisets of signals are equal and no quote differs. */
  lemma NothingReportedExactly(project: seq<SignalRow>, reference: seq<SignalRow>, quotes: seq<seq<string>>)
    ensures |Mismatches(project, reference, quotes)| == 0 <==>
      SameSignals(project, reference) && NoQuoteDiffers(quotes, |project|)
  {
    hide Normalized, SameSignals, MismatchesUpTo, NoQuoteDiffers, RowEqual;
    var p, r := Normalized(project), Normalized(reference);
    SameSignalsSortAlike(project, reference);
    NoMismatchUpTo(p, r, quotes, MaxLen(p, r));
    AllRowsEqual(p, r, quotes);
  }

  // ----- comparing one reference run

  /** What another comparison (indicators, trades, equity, metrics) reported; it fails only with a row to show. */
  datatype Report = Report(total: nat, failed: bool)

  ghost predicate Sound(r: Report) {
    r.failed ==> r.total > 0
  }

  datatype Reference = Reference(status: string, role: string, signals: seq<SignalRow>, quotes: seq<seq<string>>,
                                 indicators: Report, indicatorsEmpty: bool, trades: Report, equity: Report, metrics: Report)

  predicate Independent(role: string) {
    role == "reference_signals_only" || role == "reference_full"
  }

  predicate KnownRole(role: string) {
    Independent(role) || role == "advisory" || role == "not_applicable" || role == "skipped_dependency"
  }

  /** `_scope_summary`, the status. */
  function ScopeStatus(advisory: bool, report: Report, skipped: bool): string {
    if skipped then "SKIP"
    else if advisory && report.total > 0 then "ADVISORY_MISMATCH"
    else if report.failed then "FAIL"
    else "PASS"
  }

  function SignalReport(project: seq<SignalRow>, ref: Reference): Report {
    var rows := Mismatches(project, ref.signals, ref.quotes);
    Report(|rows|, |rows| > 0)
  }

  function Scopes(project: seq<SignalRow>, ref: Reference): seq<string> {
    var full := ref.role == "reference_full";
    [ScopeStatus(true, ref.indicators, ref.indicatorsEmpty),
     ScopeStatus(!Independent(ref.role), SignalReport(project, ref), false),
     ScopeStatus(!full, ref.trades, false), ScopeStatus(!full, ref.equity, false), ScopeStatus(!full, ref.metrics, false)]
  }

  /** `compare_reference`, through `_comparison_status`. */
  function ComparisonStatus(project: seq<SignalRow>, ref: Reference): string {
    var full := ref.role == "reference_full";
    var scopes := Scopes(project, ref);
    var failed := (SignalReport(project, ref).failed && Independent(ref.role))
                  || (full && (ref.trades.failed || ref.equity.failed || ref.metrics.failed));
    if forall s :: s in scopes ==> s == "SKIP" then "SKIP"
    else if failed || "FAIL" in scopes then "FAIL"
    else "PASS"
  }

  ghost predicate SoundReports(ref: Reference) {
    Sound(ref.indicators) && Sound(ref.trades) && Sound(ref.equity) && Sound(ref.metrics)
  }

  /** When an independent reference passes: its signals are the project's, and a full one agrees on the rest too. */
  lemma IndependentPassMeans(project: seq<SignalRow>, ref: Reference)
    requires Independent(ref.role) && SoundReports(ref)
    ensures ComparisonStatus(project, ref) == "PASS" <==>
      && SameSignals(project, ref.signals) && NoQuoteDiffers(ref.quotes, |project|)
      && (ref.role == "reference_full" ==> !ref.trades.failed && !ref.equity.failed && !ref.metrics.failed)
  {
    NothingReportedExactly(project, ref.signals, ref.quotes);
    hide Mismatches, SameSignals, NoQuoteDiffers;
    var scopes := Scopes(project, ref);
    assert scopes[1] == ScopeStatus(false, SignalReport(project, ref), false);
    assert scopes[2] == ScopeStatus(ref.role != "reference_full", ref.trades, false);
    assert scopes[1] in scopes;
  }

  // ----- the gate and the conclusion

  datatype EngineResult = EngineResult(status: string, role: string, comparison: string)

  function ResultOf(project: seq<SignalRow>, ref: Reference): EngineResult {
    EngineResult(ref.status, if KnownRole(ref.role) then ref.role else "advisory",
                 if ref.status == "OK" then ComparisonStatus(project, ref) else ref.status)
  }

  predicate PassesIndependently(e: EngineResult) {
    e.status == "OK" && e.comparison == "PASS" && Independent(e.role)
  }

  function IndependentPassing(results: map<string, EngineResult>): set<string> {
    set name | name in results && PassesIndependently(results[name])
  }

  datatype Capability = Implemented | AdapterRequired | NotTargeted

  /** A strategy's contract; floor is the number of reference engines it asks for. */
  datatype Contract = Contract(declared: bool, floor: nat, engines: map<string, Capability>)

  /** `int(contract.get("minimum_reference_engines") or 1)`: asking for none asks for one. */
  function Minimum(contract: Contract): nat {
    if contract.floor == 0 then 1 else contract.floor
  }

  /** `_engine_reference_capability`: an engine runs only when a declared contract lists it as implemented. */
  predicate Runnable(contract: Contract, name: string) {
    contract.declared && name in contract.engines && contract.engines[name] == Implemented
  }

  /** What an adapter that refuses to run returns. */
  const Skipped: Reference :=
    Reference("SKIP", "not_applicable", [], [], Report(0, false), true, Report(0, false), Report(0, false), Report(0, false))

  /** `ReferenceAdapter.run`: the available run of each selected engine, or a refusal. */
  function Runs(contract: Contract, available: seq<(string, Reference)>): (r: seq<(string, Reference)>)
    ensures |r| == |available|
    ensures forall i :: 0 <= i < |r| ==>
      r[i] == (available[i].0, if Runnable(contract, available[i].0) then available[i].1 else Skipped)
  {
    if |available| == 0 then []
    else
      var (name, ref) := available[|available| - 1];
      Runs(contract, available[..|available| - 1]) + [(name, if Runnable(contract, name) then ref else Skipped)]
  }

  function Targets(contract: Contract, selected: seq<string>): set<string> {
    set name | name in selected && name in contract.engines && contract.engines[name] != NotTargeted
  }

  /** The gate's own reason, empty when it sees none. */
  function BlockedReason(contract: Contract, results: map<string, EngineResult>, selected: seq<string>): string {
    var independent := IndependentPassing(results);
    var passing := set name | name in results && results[name].status == "OK" && results[name].comparison == "PASS";
    if !contract.declared then "missing_reference_validation_contract"
    else if forall name :: name in contract.engines ==> contract.engines[name] == NotTargeted then "no_declared_reference_engine_path"
    else if Targets(contract, selected) == {} then "selected_engines_do_not_include_declared_reference_target"
    else if passing - independent != {} && independent == {} then "only_advisory_reference_replay_completed"
    else if passing == {} then "no_reference_engine_completed"
    else if |independent| < Minimum(contract) then "insufficient_passing_reference_engines"
    else ""
  }

  /** `_reference_portability_gate`, whether it passed. */
  predicate GatePassed(contract: Contract, results: map<string, EngineResult>) {
    |IndependentPassing(results)| >= Minimum(contract)
  }

  /** `_validation_conclusion`, the status; failed is true when data or an engine's comparison failed. */
  function Conclusion(dataStatus: string, gatePassed: bool, results: map<string, EngineResult>, failed: bool): string {
    if failed || dataStatus == "FAIL" then "FAIL"
    else if gatePassed then "REFERENCE_PASS"
    else if exists name :: name in results && results[name].status == "OK" then "ADVISORY_ONLY"
    else "SKIP"
  }

  /** The runs of the selected engines, in order; a later run of the same engine replaces the earlier. */
  function LastRun(runs: seq<(string, Reference)>, name: string): Option<Reference> {
    if |runs| == 0 then None
    else if runs[|runs| - 1].0 == name then Some(runs[|runs| - 1].1)
    else LastRun(runs[..|runs| - 1], name)
  }

  /** The results dictionary: every engine run, with the result of its last run. */
  ghost predicate ResultsOf(project: seq<SignalRow>, runs: seq<(string, Reference)>, results: map<string, EngineResult>) {
    forall name :: (name in results <==> LastRun(runs, name).Some?)
                   && (name in results ==> results[name] == ResultOf(project, LastRun(runs, name).value))
  }

  /** `run_differential_validation`, from the selected engines to the conclusion. */
  method Validate(project: seq<SignalRow>, available: seq<(string, Reference)>, contract: Contract, dataStatus: string)
    returns (results: map<string, EngineResult>, status: string, blocked: string)
    ensures ResultsOf(project, Runs(contract, available), results)
    ensures status == Conclusion(dataStatus, GatePassed(contract, results), results, AnyFailed(results) || dataStatus == "FAIL")
    ensures blocked == BlockedReason(contract, results, Names(available))
    ensures GatePassed(contract, results) <==> blocked == ""
    ensures AllSound(available) ==> ConcludesAs(project, available, contract, dataStatus, status)
    ensures AllSound(available) ==> ReasonFits(project, available, contract, blocked)
  {
    hide AllSound, ConcludesAs, ReasonFits;
    hide ResultsOf, ResultOf, Runs, BlockedReason, GatePassed, Conclusion, AnyFailed;
    results := map[];
    NoResults(project, contract, available);
    for i := 0 to |available|
      invariant ResultsOf(project, Runs(contract, available[..i]), results)
    {
      var (name, ref) := available[i];
      ResultsSnoc(project, contract, available, i, results);
      results := results[name := ResultOf(project, if Runnable(contract, name) then ref else Skipped)];
    }
    assert available[..|available|] == available;
    var passed := GatePassed(contract, results);
    status := Conclusion(dataStatus, passed, results, AnyFailed(results) || dataStatus == "FAIL");
    blocked := BlockedReason(contract, results, Names(available));
    PassNamesNoReason(project, available, contract, results);
    if AllSound(available) {
      ConclusionExactly(project, available, contract, dataStatus, results);
      ReasonExactly(project, available, contract, results);
    }
  }

  // ----- the conclusion, from data and runs

  /** The run an engine's result comes from: its last available one, if the contract lets it run. */
  ghost predicate RanAs(contract: Contract, available: seq<(string, Reference)>, name: string, ref: Reference) {
    && contract.declared && name in contract.engines && contract.engines[name] == Implemented
    && LastRun(available, name) == Some(ref)
  }

  ghost predicate Completes(contract: Contract, available: seq<(string, Reference)>, name: string) {
    exists ref :: RanAs(contract, available, name, ref) && ref.status == "OK"
  }

  /** The run has the project's signals and quotes and, if it is a full one, its trades, equity and metrics. */
  ghost predicate Agrees(project: seq<SignalRow>, ref: Reference) {
    && SameSignals(project, ref.signals) && NoQuoteDiffers(ref.quotes, |project|)
    && (ref.role == "reference_full" ==> !ref.trades.failed && !ref.equity.failed && !ref.metrics.failed)
  }

  /** An independent run that completed and disagrees, or a run that says itself that it failed. */
  ghost predicate Contradicts(project: seq<SignalRow>, contract: Contract, available: seq<(string, Reference)>, name: string) {
    exists ref :: RanAs(contract, available, name, ref)
                  && (ref.status == "FAIL" || (ref.status == "OK" && Independent(ref.role) && !Agrees(project, ref)))
  }

  /** An independent run that completed and agrees. */
  ghost predicate Confirms(project: seq<SignalRow>, contract: Contract, available: seq<(string, Reference)>, name: string) {
    exists ref :: RanAs(contract, available, name, ref)
                  && ref.status == "OK" && Independent(ref.role) && Agrees(project, ref)
  }

  ghost function Confirming(project: seq<SignalRow>, contract: Contract, available: seq<(string, Reference)>): set<string> {
    set name | name in Names(available) && Confirms(project, contract, available, name)
  }

  /**
   The status: FAIL when the data failed or some engine contradicts the project; else
   REFERENCE_PASS when enough engines confirm it, at least one; else ADVISORY_ONLY when some
   engine completed; else SKIP.
   */
  ghost predicate ConcludesAs(project: seq<SignalRow>, available: seq<(string, Reference)>, contract: Contract,
                              dataStatus: string, status: string) {
    var bad := dataStatus == "FAIL" || exists name :: Contradicts(project, contract, available, name);
    var confirming := |Confirming(project, contract, available)|;
    var enough := confirming >= 1 && confirming >= contract.floor;
    var some := exists name :: Completes(contract, available, name);
    && (status == "FAIL" <==> bad)
    && (status == "REFERENCE_PASS" <==> !bad && enough)
    && (status == "ADVISORY_ONLY" <==> !bad && !enough && some)
    && (status == "SKIP" <==> !bad && !enough && !some)
  }

  lemma {:induction false} LastRunOfRuns(contract: Contract, available: seq<(string, Reference)>, name: string)
    ensures LastRun(Runs(contract, available), name) ==
      if LastRun(available, name).None? then None
      else if Runnable(contract, name) then LastRun(available, name) else Some(Skipped)
  {
    if |available| > 0 {
      var n := |available| - 1;
      LastRunOfRuns(contract, available[..n], name);
      RunsSnoc(contract, available, n);
      assert available[..n + 1] == available;
    }
  }

  /** A completed comparison fails exactly when an independent run disagrees, and else passes. */
  lemma ComparisonMeans(project: seq<SignalRow>, ref: Reference)
    requires SoundReports(ref)
    ensures ComparisonStatus(project, ref) == "FAIL" <==> Independent(ref.role) && !Agrees(project, ref)
    ensures ComparisonStatus(project, ref) == "PASS" <==> Independent(ref.role) ==> Agrees(project, ref)
  {
    if Independent(ref.role) {
      IndependentPassMeans(project, ref);
    }
    NotSkipped(project, ref);
    hide SameSignals, NoQuoteDiffers, Mismatches;
  }

  lemma NotSkipped(project: seq<SignalRow>, ref: Reference)
    requires SoundReports(ref)
    ensures ComparisonStatus(project, ref) == "PASS" || ComparisonStatus(project, ref) == "FAIL"
    ensures !Independent(ref.role) ==> ComparisonStatus(project, ref) == "PASS"
  {
    hide Mismatches;
    var scopes := Scopes(project, ref);
    assert "SKIP"[0] != "FAIL"[0] && "SKIP"[0] != "PASS"[0] && "SKIP"[0] != "ADVISORY_MISMATCH"[0];
    assert "FAIL"[0] != "PASS"[0] && "FAIL"[0] != "ADVISORY_MISMATCH"[0];
    assert scopes[1] in scopes && scopes[1] != "SKIP";
    if !Independent(ref.role) {
      NothingFails(project, ref);
    }
  }

  lemma NothingFails(project: seq<SignalRow>, ref: Reference)
    requires SoundReports(ref) && !Independent(ref.role)
    ensures "FAIL" !in Scopes(project, ref)
  {
    hide Mismatches;
    var scopes := Scopes(project, ref);
    assert "FAIL"[0] == 'F' && "PASS"[0] == 'P' && "SKIP"[0] == 'S' && "ADVISORY_MISMATCH"[0] == 'A';
    forall i | 0 <= i < |scopes|
      ensures scopes[i] != "FAIL"
    {
      assert scopes[i] == ScopeStatus(true, [ref.indicators, SignalReport(project, ref), ref.trades, ref.equity, ref.metrics][i],
                                      i == 0 && ref.indicatorsEmpty);
    }
  }

  lemma ResultOfMeans(project: seq<SignalRow>, ref: Reference)
    requires SoundReports(ref)
    ensures var e := ResultOf(project, ref);
      && (e.comparison == "FAIL" <==>
            ref.status == "FAIL" || (ref.status == "OK" && Independent(ref.role) && !Agrees(project, ref)))
      && (e.status == "OK" <==> ref.status == "OK")
      && (PassesIndependently(e) <==> ref.status == "OK" && Independent(ref.role) && Agrees(project, ref))
  {
    ComparisonMeans(project, ref);
    hide ComparisonStatus, Agrees, SoundReports;
  }

  lemma SkippedMeans(project: seq<SignalRow>)
    ensures var e := ResultOf(project, Skipped); e.comparison != "FAIL" && e.status != "OK"
  {
    assert "SKIP"[0] != "FAIL"[0] && "SKIP"[0] != "OK"[0];
    hide ComparisonStatus;
  }

  lemma RanOnce(contract: Contract, available: seq<(string, Reference)>, name: string)
    ensures forall ref :: RanAs(contract, available, name, ref) <==>
      Runnable(contract, name) && LastRun(available, name) == Some(ref)
  {
    hide LastRun;
  }

  /** What one engine's result says, in terms of its run. */
  lemma ResultMeans(project: seq<SignalRow>, available: seq<(string, Reference)>, contract: Contract,
                    results: map<string, EngineResult>, name: string)
    requires AllSound(available) && ResultsOf(project, Runs(contract, available), results)
    ensures name in results && results[name].comparison == "FAIL" <==> Contradicts(project, contract, available, name)
    ensures name in results && results[name].status == "OK" <==> Completes(contract, available, name)
    ensures name in IndependentPassing(results) <==> Confirms(project, contract, available, name)
  {
    LastRunOfRuns(contract, available, name);
    RanOnce(contract, available, name);
    SkippedMeans(project);
    if LastRun(available, name).Some? {
      LastRunSound(available, name);
      ResultOfMeans(project, LastRun(available, name).value);
    }
    hide ResultOf, Agrees, SoundReports, AllSound, Runs, LastRun, RanAs, Runnable;
  }

  lemma ConclusionExactly(project: seq<SignalRow>, available: seq<(string, Reference)>, contract: Contract,
                          dataStatus: string, results: map<string, EngineResult>)
    requires AllSound(available) && ResultsOf(project, Runs(contract, available), results)
    ensures ConcludesAs(project, available, contract, dataStatus,
                        Conclusion(dataStatus, GatePassed(contract, results), results,
                                   AnyFailed(results) || dataStatus == "FAIL"))
  {
    forall name
      ensures name in results && results[name].comparison == "FAIL" <==> Contradicts(project, contract, available, name)
      ensures name in results && results[name].status == "OK" <==> Completes(contract, available, name)
      ensures name in IndependentPassing(results) <==> name in Confirming(project, contract, available)
    {
      ResultMeans(project, available, contract, results, name);
      if Confirms(project, contract, available, name) {
        NamedRun(available, name);
      }
    }
    assert IndependentPassing(results) == Confirming(project, contract, available);
    ConclusionCases(dataStatus, GatePassed(contract, results), results, AnyFailed(results) || dataStatus == "FAIL");
    hide IndependentPassing, Confirming, Contradicts, Completes, ResultsOf, Runs, Conclusion;
  }

  lemma ConclusionCases(dataStatus: string, gatePassed: bool, results: map<string, EngineResult>, failed: bool)
    ensures var status, bad, some := Conclusion(dataStatus, gatePassed, results, failed), failed || dataStatus == "FAIL",
                                     exists name :: name in results && results[name].status == "OK";
      && (status == "FAIL" <==> bad)
      && (status == "REFERENCE_PASS" <==> !bad && gatePassed)
      && (status == "ADVISORY_ONLY" <==> !bad && !gatePassed && some)
      && (status == "SKIP" <==> !bad && !gatePassed && !some)
  {
    assert "FAIL"[0] == 'F' && "REFERENCE_PASS"[0] == 'R' && "ADVISORY_ONLY"[0] == 'A' && "SKIP"[0] == 'S';
  }

  // ----- the reason, from the runs

  /** The contract names some engine that runs, or could with an adapter. */
  ghost predicate HasPath(contract: Contract) {
    exists name :: name in contract.engines && contract.engines[name] != NotTargeted
  }

  ghost predicate SelectsTarget(contract: Contract, available: seq<(string, Reference)>) {
    exists i :: 0 <= i < |available| && available[i].0 in contract.engines
                && contract.engines[available[i].0] != NotTargeted
  }

  /** Some engine completed without contradicting the project. */
  ghost predicate SomePasses(project: seq<SignalRow>, contract: Contract, available: seq<(string, Reference)>) {
    exists name :: Completes(contract, available, name) && !Contradicts(project, contract, available, name)
  }

  /** The reason named: the first of six shortcomings, in this order. */
  ghost predicate ReasonFits(project: seq<SignalRow>, available: seq<(string, Reference)>, contract: Contract, reason: string) {
    var confirming := |Confirming(project, contract, available)|;
    if !contract.declared then reason == "missing_reference_validation_contract"
    else if !HasPath(contract) then reason == "no_declared_reference_engine_path"
    else if !SelectsTarget(contract, available) then reason == "selected_engines_do_not_include_declared_reference_target"
    else if !SomePasses(project, contract, available) then reason == "no_reference_engine_completed"
    else if confirming == 0 then reason == "only_advisory_reference_replay_completed"
    else if confirming < contract.floor then reason == "insufficient_passing_reference_engines"
    else reason == ""
  }

  lemma TargetsMeans(contract: Contract, available: seq<(string, Reference)>)
    ensures Targets(contract, Names(available)) != {} <==> SelectsTarget(contract, available)
  {
    if SelectsTarget(contract, available) {
      var i :| 0 <= i < |available| && available[i].0 in contract.engines && contract.engines[available[i].0] != NotTargeted;
      assert Names(available)[i] in Targets(contract, Names(available));
    }
    if Targets(contract, Names(available)) != {} {
      var name :| name in Targets(contract, Names(available));
      var i :| 0 <= i < |available| && Names(available)[i] == name;
    }
  }

  function Passing(results: map<string, EngineResult>): set<string> {
    set name | name in results && results[name].status == "OK" && results[name].comparison == "PASS"
  }

  /** The reasons, in terms of the sets the gate computes. */
  lemma ReasonCases(contract: Contract, results: map<string, EngineResult>, selected: seq<string>)
    ensures var reason, independent := BlockedReason(contract, results, selected), |IndependentPassing(results)|;
      if !contract.declared then reason == "missing_reference_validation_contract"
      else if !HasPath(contract) then reason == "no_declared_reference_engine_path"
      else if Targets(contract, selected) == {} then reason == "selected_engines_do_not_include_declared_reference_target"
      else if Passing(results) == {} then reason == "no_reference_engine_completed"
      else if independent == 0 then reason == "only_advisory_reference_replay_completed"
      else if independent < contract.floor then reason == "insufficient_passing_reference_engines"
      else reason == ""
  {
    assert IndependentPassing(results) <= Passing(results);
    assert Passing(results) == set name | name in results && results[name].status == "OK" && results[name].comparison == "PASS";
    hide Targets, PassesIndependently, Passing;
    if Passing(results) != {} && IndependentPassing(results) == {} {
      assert Passing(results) - IndependentPassing(results) == Passing(results);
    }
  }

  lemma PassingMeans(project: seq<SignalRow>, available: seq<(string, Reference)>, contract: Contract,
                     results: map<string, EngineResult>)
    requires AllSound(available) && ResultsOf(project, Runs(contract, available), results)
    ensures Passing(results) != {} <==> SomePasses(project, contract, available)
    ensures IndependentPassing(results) == Confirming(project, contract, available)
  {
    forall name
      ensures name in Passing(results) <==>
        Completes(contract, available, name) && !Contradicts(project, contract, available, name)
      ensures name in IndependentPassing(results) <==> name in Confirming(project, contract, available)
    {
      ResultMeans(project, available, contract, results, name);
      CompletedPassesOrFails(project, available, contract, results, name);
      if Confirms(project, contract, available, name) {
        NamedRun(available, name);
      }
    }
    hide Passing, Completes, Contradicts, IndependentPassing, Confirming;
    if Passing(results) != {} {
      var name :| name in Passing(results);
    }
  }

  lemma CompletedPassesOrFails(project: seq<SignalRow>, available: seq<(string, Reference)>, contract: Contract,
                               results: map<string, EngineResult>, name: string)
    requires AllSound(available) && ResultsOf(project, Runs(contract, available), results)
    ensures name in results && results[name].status == "OK" ==>
      (results[name].comparison == "PASS" <==> results[name].comparison != "FAIL")
  {
    LastRunOfRuns(contract, available, name);
    SkippedMeans(project);
    assert "PASS"[0] != "FAIL"[0];
    if LastRun(available, name).Some? {
      LastRunSound(available, name);
      NotSkipped(project, LastRun(available, name).value);
    }
    hide ComparisonStatus, SoundReports, AllSound, Runs, LastRun, Runnable;
  }

  /** The reason named is the first shortcoming of the contract and the runs. */
  lemma ReasonExactly(project: seq<SignalRow>, available: seq<(string, Reference)>, contract: Contract,
                      results: map<string, EngineResult>)
    requires AllSound(available) && ResultsOf(project, Runs(contract, available), results)
    ensures ReasonFits(project, available, contract, BlockedReason(contract, results, Names(available)))
  {
    ReasonCases(contract, results, Names(available));
    TargetsMeans(contract, available);
    PassingMeans(project, available, contract, results);
    hide BlockedReason, Targets, Passing, HasPath, SelectsTarget, SomePasses, Confirming, IndependentPassing, ResultsOf;
  }

  lemma NamedRun(available: seq<(string, Reference)>, name: string)
    requires LastRun(available, name).Some?
    ensures name in Names(available)
  {
    var i := LastRunAt(available, name);
    assert Names(available)[i] == name;
  }

  lemma NoResults(project: seq<SignalRow>, contract: Contract, available: seq<(string, Reference)>)
    ensures ResultsOf(project, Runs(contract, available[..0]), map[])
  {
  }

  lemma ResultsSnoc(project: seq<SignalRow>, contract: Contract, available: seq<(string, Reference)>, i: nat,
                    results: map<string, EngineResult>)
    requires i < |available| && ResultsOf(project, Runs(contract, available[..i]), results)
    ensures var (name, ref) := available[i];
      ResultsOf(project, Runs(contract, available[..i + 1]),
                results[name := ResultOf(project, if Runnable(contract, name) then ref else Skipped)])
  {
    RunsSnoc(contract, available, i);
    hide Runs, ResultOf;
  }

  lemma RunsSnoc(contract: Contract, available: seq<(string, Reference)>, i: nat)
    requires i < |available|
    ensures var (name, ref) := available[i];
      Runs(contract, available[..i + 1]) ==
        Runs(contract, available[..i]) + [(name, if Runnable(contract, name) then ref else Skipped)]
    ensures Runs(contract, available[..i + 1])[..i] == Runs(contract, available[..i])
  {
    assert available[..i + 1][..i] == available[..i];
  }

  function Names(runs: seq<(string, Reference)>): (r: seq<string>)
    ensures |r| == |runs| && forall i :: 0 <= i < |r| ==> r[i] == runs[i].0
  {
    if |runs| == 0 then [] else Names(runs[..|runs| - 1]) + [runs[|runs| - 1].0]
  }

  predicate AnyFailed(results: map<string, EngineResult>) {
    exists name :: name in results && results[name].comparison == "FAIL"
  }

  /** An independent engine whose last run reproduced the project's signals. */
  ghost predicate Reproduces(project: seq<SignalRow>, runs: seq<(string, Reference)>, name: string) {
    var run := LastRun(runs, name);
    && run.Some? && run.value.status == "OK" && Independent(run.value.role)
    && SameSignals(project, run.value.signals)
  }

  ghost predicate AllSound(runs: seq<(string, Reference)>) {
    forall i :: 0 <= i < |runs| ==> SoundReports(runs[i].1)
  }

  lemma {:induction false} LastRunSound(runs: seq<(string, Reference)>, name: string)
    requires AllSound(runs) && LastRun(runs, name).Some?
    ensures SoundReports(LastRun(runs, name).value)
  {
    if runs[|runs| - 1].0 != name {
      LastRunSound(runs[..|runs| - 1], name);
    }
  }

  /**
   REFERENCE_PASS means: the data did not fail, no engine's comparison failed, and at least
   the minimum number of independent engines reproduced the project's multiset of signals.
   */
  lemma ReferencePassIsSound(project: seq<SignalRow>, runs: seq<(string, Reference)>, contract: Contract,
                             dataStatus: string, results: map<string, EngineResult>)
    requires AllSound(runs) && ResultsOf(project, runs, results)
    requires Conclusion(dataStatus, GatePassed(contract, results), results, AnyFailed(results) || dataStatus == "FAIL")
             == "REFERENCE_PASS"
    ensures dataStatus != "FAIL" && !AnyFailed(results)
    ensures |IndependentPassing(results)| >= Minimum(contract)
    ensures forall name :: name in IndependentPassing(results) ==> Reproduces(project, runs, name)
  {
    forall name | name in IndependentPassing(results)
      ensures Reproduces(project, runs, name)
    {
      LastRunSound(runs, name);
      IndependentPassMeans(project, LastRun(runs, name).value);
    }
  }

  /** A signals-only reference that completes is counted exactly when it reproduces the project's signals and quotes. */
  lemma SignalsOnlyCountedExactly(project: seq<SignalRow>, runs: seq<(string, Reference)>, results: map<string, EngineResult>,
                                  name: string)
    requires AllSound(runs) && ResultsOf(project, runs, results) && LastRun(runs, name).Some?
    requires LastRun(runs, name).value.status == "OK" && LastRun(runs, name).value.role == "reference_signals_only"
    ensures name in IndependentPassing(results) <==>
      Reproduces(project, runs, name) && NoQuoteDiffers(LastRun(runs, name).value.quotes, |project|)
  {
    LastRunSound(runs, name);
    IndependentPassMeans(project, LastRun(runs, name).value);
  }

  /** No reason is named exactly when the gate passes, the contract is declared and a target was selected. */
  lemma BlockedExactly(contract: Contract, results: map<string, EngineResult>, selected: seq<string>)
    ensures BlockedReason(contract, results, selected) == "" <==>
      GatePassed(contract, results) && contract.declared && Targets(contract, selected) != {}
  {
    var independent := IndependentPassing(results);
    if GatePassed(contract, results) && Targets(contract, selected) != {} {
      var name :| name in Targets(contract, selected);
      assert contract.engines[name] != NotTargeted;
      var one :| one in independent;
      assert one in results && results[one].status == "OK" && results[one].comparison == "PASS";
    }
  }

  lemma {:induction false} LastRunAt(runs: seq<(string, Reference)>, name: string) returns (i: nat)
    requires LastRun(runs, name).Some?
    ensures i < |runs| && runs[i] == (name, LastRun(runs, name).value)
  {
    i := |runs| - 1;
    if runs[i].0 != name {
      i := LastRunAt(runs[..i], name);
    }
  }

  /** In every validation the gate passes exactly when it names no reason: only a declared, implemented engine can complete. */
  lemma PassNamesNoReason(project: seq<SignalRow>, available: seq<(string, Reference)>, contract: Contract,
                          results: map<string, EngineResult>)
    requires ResultsOf(project, Runs(contract, available), results)
    ensures GatePassed(contract, results) <==> BlockedReason(contract, results, Names(available)) == ""
  {
    hide BlockedReason, ComparisonStatus;
    BlockedExactly(contract, results, Names(available));
    if GatePassed(contract, results) {
      var one :| one in IndependentPassing(results);
      var i := LastRunAt(Runs(contract, available), one);
      assert Runnable(contract, one) && Names(available)[i] == one;
      assert one in Targets(contract, Names(available));
    }
  }
}
