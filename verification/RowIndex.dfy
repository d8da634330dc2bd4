/** The derived row index of list-like artifacts: replacing upserts, and reads that filter, slice or sample. */
module RowIndex {
  import opened Wrappers
  import opened Sorting

  /** A record's fields as text; None stands for null. */
  type Fields = map<string, Option<string>>

  datatype Item = Record(fields: Fields) | OtherItem

  datatype Payload = ListPayload(items: seq<Item>) | OtherPayload

  datatype Row = Row(runId: string, kind: string, ordinal: nat, instId: string, datetimeText: string, fields: Fields)

  /** What identifies an artifact: its run and its type. */
  datatype Key = Key(runId: string, kind: string)

  const SymbolKeys: seq<string> := ["inst_id", "symbol", "instrument", "instrument_id", "perp_symbol", "spot_symbol"]

  function FirstText(fields: Fields, keys: seq<string>): string {
    if |keys| == 0 then ""
    else if keys[0] in fields && fields[keys[0]].Some? && fields[keys[0]].value != "" then fields[keys[0]].value
    else FirstText(fields, keys[1..])
  }

  /** `_extract_symbol`. */
  function SymbolOf(fields: Fields): string {
    FirstText(fields, SymbolKeys)
  }

  /** `_extract_datetime_text`. */
  function DatetimeOf(fields: Fields): string {
    FirstText(fields, ["datetime", "timestamp", "time"])
  }

  /** The field has text. */
  ghost predicate HasText(fields: Fields, key: string, text: string) {
    text != "" && key in fields && fields[key] == Some(text)
  }

  /** The text of the first of the keys that has one, or nothing when none has. */
  ghost predicate FirstOf(fields: Fields, keys: seq<string>, text: string) {
    if text == "" then forall k, t :: 0 <= k < |keys| ==> !HasText(fields, keys[k], t)
    else exists k :: 0 <= k < |keys| && HasText(fields, keys[k], text)
                     && forall j, t :: 0 <= j < k ==> !HasText(fields, keys[j], t)
  }

  lemma {:induction false} FirstTextIsFirst(fields: Fields, keys: seq<string>)
    ensures FirstOf(fields, keys, FirstText(fields, keys))
  {
    if |keys| > 0 {
      FirstTextIsFirst(fields, keys[1..]);
      var text := FirstText(fields, keys);
      if keys[0] in fields && fields[keys[0]].Some? && fields[keys[0]].value != "" {
        assert HasText(fields, keys[0], text);
      } else {
        assert forall k :: 0 < k < |keys| ==> keys[k] == keys[1..][k - 1];
        if text != "" {
          var k :| 0 <= k < |keys[1..]| && HasText(fields, keys[1..][k], text)
            && forall j, t :: 0 <= j < k ==> !HasText(fields, keys[1..][j], t);
          assert HasText(fields, keys[k + 1], text);
        }
      }
    }
  }

  /** What a row says of its record: the record itself, its position, and the first symbol and time text it has. */
  ghost predicate RowFits(key: Key, row: Row, ordinal: nat, record: Fields) {
    && row.runId == key.runId && row.kind == key.kind && row.ordinal == ordinal && row.fields == record
    && FirstOf(record, ["inst_id", "symbol", "instrument", "instrument_id", "perp_symbol", "spot_symbol"], row.instId)
    && FirstOf(record, ["datetime", "timestamp", "time"], row.datetimeText)
  }

  /** The records of a payload, without the items that are not records. */
  function RecordsOf(items: seq<Item>): seq<Fields> {
    if |items| == 0 then []
    else
      var last := items[|items| - 1];
      RecordsOf(items[..|items| - 1]) + (if last.Record? then [last.fields] else [])
  }

  function PayloadRecords(payload: Payload): seq<Fields> {
    if payload.ListPayload? then RecordsOf(payload.items) else []
  }

  /** The rows of a list of records, with ordinals from 0. */
  function RowsOf(key: Key, records: seq<Fields>): (r: seq<Row>)
    ensures |r| == |records|
    ensures forall i :: 0 <= i < |r| ==> r[i] == Row(key.runId, key.kind, i, SymbolOf(records[i]), DatetimeOf(records[i]), records[i])
  {
    if |records| == 0 then []
    else
      var n := |records| - 1;
      RowsOf(key, records[..n]) + [Row(key.runId, key.kind, n, SymbolOf(records[n]), DatetimeOf(records[n]), records[n])]
  }

  /** `build_artifact_row_records`. */
  method BuildRows(key: Key, payload: Payload) returns (rows: seq<Row>)
    ensures rows == RowsOf(key, PayloadRecords(payload))
    ensures |rows| == |PayloadRecords(payload)|
    ensures forall i :: 0 <= i < |rows| ==> RowFits(key, rows[i], i, PayloadRecords(payload)[i])
  {
    forall record
      ensures FirstOf(record, ["inst_id", "symbol", "instrument", "instrument_id", "perp_symbol", "spot_symbol"], SymbolOf(record))
      ensures FirstOf(record, ["datetime", "timestamp", "time"], DatetimeOf(record))
    {
      FirstTextIsFirst(record, SymbolKeys);
      FirstTextIsFirst(record, ["datetime", "timestamp", "time"]);
    }
    hide SymbolOf, DatetimeOf, FirstOf, FirstText;
    if !payload.ListPayload? {
      return [];
    }
    rows := [];
    var ordinal: nat := 0;
    for i := 0 to |payload.items|
      invariant ordinal == |rows|
      invariant rows == RowsOf(key, RecordsOf(payload.items[..i]))
    {
      assert payload.items[..i + 1][..i] == payload.items[..i];
      if payload.items[i].OtherItem? {
        continue;
      }
      var row := payload.items[i].fields;
      rows := rows + [Row(key.runId, key.kind, ordinal, SymbolOf(row), DatetimeOf(row), row)];
      ordinal := ordinal + 1;
    }
    assert payload.items[..|payload.items|] == payload.items;
  }

  // ----- sampling

  lemma MulAtLeast(d: int, n: int)
    requires n > 0
    ensures d >= 1 ==> d * n >= n
    ensures d <= -1 ==> d * n <= -n
  {
    if d >= 1 {
      assert (d - 1) * n >= 0;
      assert (d - 1) * n == d * n - n;
    } else if d <= -1 {
      assert (-d - 1) * n >= 0;
      assert (-d - 1) * n == -(d * n) - n;
    }
  }

  /** A quotient is known by its remainder. */
  lemma QuotientIs(a: int, n: int, q: int, r: int)
    requires n > 0 && a == q * n + r && 0 <= r < n
    ensures a / n == q
  {
    var p, s := a / n, a % n;
    assert a == p * n + s;
    assert (p - q) * n == p * n - q * n;
    MulAtLeast(p - q, n);
  }

  /** The least whole number not below total / n. */
  function Ceil(total: int, n: int): int
    requires n > 0
  {
    if total % n == 0 then total / n else total / n + 1
  }

  lemma CeilCovers(total: int, n: int)
    requires n > 0
    ensures 0 <= Ceil(total, n) * n - total < n
  {
    var c, t := total / n, total % n;
    assert total == c * n + t;
    assert (c + 1) * n == c * n + n;
  }

  /** The i-th sampling position, `int(i * total / n)` in exact arithmetic. */
  function At(i: int, total: int, n: int): int
    requires n > 0
  {
    i * total / n
  }

  lemma StepsBounded(i: int, total: int, n: int)
    requires 0 < n < total
    ensures At(i, total, n) + 1 <= At(i + 1, total, n) <= At(i, total, n) + Ceil(total, n)
  {
    var a := i * total;
    var q, s, c, t := a / n, a % n, total / n, total % n;
    assert (i + 1) * total == a + total;
    assert a == q * n + s && total == c * n + t;
    assert (q + c) * n == q * n + c * n;
    assert (q + c + 1) * n == q * n + c * n + n;
    if s + t < n {
      QuotientIs(a + total, n, q + c, s + t);
    } else {
      QuotientIs(a + total, n, q + c + 1, s + t - n);
    }
    QuotientAtLeastOne(total, n);
  }

  lemma QuotientAtLeastOne(total: int, n: int)
    requires 0 < n <= total
    ensures total / n >= 1
  {
    var c, t := total / n, total % n;
    assert total == c * n + t;
    assert (1 - c) * n == n - c * n;
    MulAtLeast(1 - c, n);
  }

  lemma FirstAndLast(total: int, n: int)
    requires 0 < n < total
    ensures At(0, total, n) == 0
    ensures At(n - 1, total, n) == total - Ceil(total, n) && Ceil(total, n) >= 2
  {
    var c := Ceil(total, n);
    QuotientIs(0, n, 0, 0);
    CeilCovers(total, n);
    assert (n - 1) * total == n * total - total;
    assert (total - c) * n == total * n - c * n;
    QuotientIs((n - 1) * total, n, total - c, c * n - total);
    assert (2 - c) * n == 2 * n - c * n;
    MulAtLeast(2 - c, n);
  }

  ghost predicate Increasing(indices: seq<int>) {
    forall i, j :: 0 <= i < j < |indices| ==> indices[i] < indices[j]
  }

  /** The positions that `select_downsample_indices` collects in a set. */
  ghost predicate IsSample(x: int, total: int, n: int)
    requires n > 0
  {
    x == total - 1 || exists i :: 0 <= i < n && x == At(i, total, n)
  }

  /** n + 1 indices in order, from 0 to the last, never further apart than total / n rounded up. */
  ghost predicate EvenSample(indices: seq<int>, total: int, n: int)
    requires n > 0
  {
    && |indices| == n + 1 && Increasing(indices) && indices[0] == 0 && indices[n] == total - 1
    && (forall i :: 0 <= i < n ==> indices[i + 1] - indices[i] <= Ceil(total, n))
    && (forall x :: x in indices <==> IsSample(x, total, n))
  }

  /** The positions in order: the set is enumerated as it is collected. */
  method Positions(total: int, n: int) returns (indices: seq<int>)
    requires 0 < n < total
    ensures EvenSample(indices, total, n)
  {
    indices := [0];
    FirstAndLast(total, n);
    for i := 1 to n
      invariant |indices| == i && Increasing(indices)
      invariant forall k :: 0 <= k < i ==> indices[k] == At(k, total, n)
      invariant forall k :: 0 <= k < i - 1 ==> indices[k + 1] - indices[k] <= Ceil(total, n)
    {
      StepsBounded(i - 1, total, n);
      hide At, Ceil;
      indices := indices + [At(i, total, n)];
    }
    hide At, Ceil;
    ghost var before := indices;
    indices := indices + [total - 1];
    SampleMembers(before, total, n);
  }

  lemma SampleMembers(before: seq<int>, total: int, n: int)
    requires 0 < n == |before| && forall k :: 0 <= k < n ==> before[k] == At(k, total, n)
    ensures forall x :: x in before + [total - 1] <==> IsSample(x, total, n)
  {
    hide At;
    forall x
      ensures x in before + [total - 1] <==> IsSample(x, total, n)
    {
      if i :| 0 <= i < n && x == At(i, total, n) {
        assert before[i] == x;
      }
    }
  }

  function Range(n: nat): (r: seq<int>)
    ensures |r| == n && forall i :: 0 <= i < n ==> r[i] == i
  {
    if n == 0 then [] else Range(n - 1) + [n - 1]
  }

  /** `select_downsample_indices`. */
  method SelectDownsampleIndices(total: int, n: int) returns (indices: seq<int>)
    ensures total <= 0 ==> indices == []
    ensures total > 0 && (n <= 0 || total <= n) ==> indices == Range(total)
    ensures 0 < n < total ==> EvenSample(indices, total, n)
  {
    if total <= 0 {
      return [];
    }
    if n <= 0 || total <= n {
      return Range(total);
    }
    indices := Positions(total, n);
  }

  /** Only one list of indices is in order and holds the sample: sorting a set leaves no choice. */
  lemma {:induction false} IncreasingUnique(a: seq<int>, b: seq<int>)
    requires Increasing(a) && Increasing(b) && forall x :: x in a <==> x in b
    ensures a == b
  {
    if |a| > 0 && |b| > 0 {
      var n, m := |a| - 1, |b| - 1;
      assert a[n] in b && b[m] in a;
      var x, y := a[n], b[m];
      assert x == y;
      forall z
        ensures z in a[..n] <==> z in b[..m]
      {
        assert z in a[..n] <==> z in a && z != x by {
          assert a == a[..n] + [x];
        }
        assert z in b[..m] <==> z in b && z != y by {
          assert b == b[..m] + [y];
        }
      }
      IncreasingUnique(a[..n], b[..m]);
      assert a == a[..n] + [x] && b == b[..m] + [y];
    } else {
      SomeMember(a);
      SomeMember(b);
    }
  }

  lemma SomeMember(s: seq<int>)
    ensures |s| > 0 ==> s[0] in s
  {
  }

  // ----- the table

  function ByOrdinal(): (Row, Row) -> bool {
    (a: Row, b: Row) => a.ordinal <= b.ordinal
  }

  lemma ByOrdinalOrders()
    ensures TotalPreorder(ByOrdinal())
  {
  }

  /** The where clause without a symbol. */
  function OfKey(key: Key): Row -> bool {
    (r: Row) => r.runId == key.runId && r.kind == key.kind
  }

  function NotOfKey(key: Key): Row -> bool {
    (r: Row) => !(r.runId == key.runId && r.kind == key.kind)
  }

  /** `_where_clause`: an empty symbol does not filter. */
  function Where(key: Key, symbol: string): Row -> bool {
    (r: Row) => r.runId == key.runId && r.kind == key.kind && (symbol == "" || r.instId == symbol)
  }

  function OfSymbol(symbol: string): Fields -> bool {
    (f: Fields) => symbol == "" || SymbolOf(f) == symbol
  }

  function FieldsOf(rows: seq<Row>): (r: seq<Fields>)
    ensures |r| == |rows| && forall i :: 0 <= i < |r| ==> r[i] == rows[i].fields
  {
    if |rows| == 0 then [] else FieldsOf(rows[..|rows| - 1]) + [rows[|rows| - 1].fields]
  }

  /** The rows of a key in ordinal order. */
  function Stored(table: seq<Row>, key: Key): seq<Row> {
    Sort(Filter(table, OfKey(key)), ByOrdinal())
  }

  /** The table holds, for the key, exactly the rows of these records, in any physical order. */
  ghost predicate Holds(table: seq<Row>, key: Key, records: seq<Fields>) {
    Stored(table, key) == RowsOf(key, records)
  }

  /** What a read of a list gives: filter, then sample, or slice. */
  ghost predicate Picked(records: seq<Fields>, symbol: string, limit: int, offset: int, n: int, r: seq<Fields>) {
    var matching := Filter(records, OfSymbol(symbol));
    if 0 < n < |matching| then
      exists indices :: EvenSample(indices, |matching|, n) && |r| == n + 1 &&
        forall i :: 0 <= i <= n ==> 0 <= indices[i] < |matching| && r[i] == matching[indices[i]]
    else r == Slice(matching, offset, limit)
  }

  /** OFFSET and LIMIT, each only when positive. */
  function Slice<T>(s: seq<T>, offset: int, limit: int): seq<T> {
    var rest := if offset <= 0 then s else if offset < |s| then s[offset..] else [];
    if limit <= 0 || |rest| <= limit then rest else rest[..limit]
  }

  lemma RowsOfSnoc(key: Key, records: seq<Fields>, n: nat)
    requires n < |records|
    ensures RowsOf(key, records)[..n] == RowsOf(key, records[..n])
  {
  }

  /** Rows of a list match the clause exactly where their records match the symbol. */
  lemma {:induction false} WhereOnRows(key: Key, records: seq<Fields>, symbol: string)
    ensures FieldsOf(Filter(RowsOf(key, records), Where(key, symbol))) == Filter(records, OfSymbol(symbol))
  {
    if |records| > 0 {
      var n := |records| - 1;
      WhereOnRows(key, records[..n], symbol);
      RowsOfSnoc(key, records, n);
      var last := RowsOf(key, records)[n];
      FieldsAppend(Filter(RowsOf(key, records[..n]), Where(key, symbol)), last);
      hide FieldsOf;
    }
  }

  lemma FieldsAppend(rows: seq<Row>, row: Row)
    ensures FieldsOf(rows + [row]) == FieldsOf(rows) + [row.fields]
  {
  }

  lemma WhereIsNarrower(table: seq<Row>, key: Key, symbol: string)
    ensures Filter(table, Where(key, symbol)) == Filter(Filter(table, OfKey(key)), Where(key, symbol))
  {
    FilterTwice(table, OfKey(key), Where(key, symbol));
  }

  lemma {:induction false} FilterTwice(s: seq<Row>, p: Row -> bool, q: Row -> bool)
    requires forall x :: q(x) ==> p(x)
    ensures Filter(s, q) == Filter(Filter(s, p), q)
  {
    if |s| > 0 {
      var n := |s| - 1;
      FilterTwice(s[..n], p, q);
      var kept := Filter(s[..n], p);
      assert Filter(s, p) == kept + (if p(s[n]) then [s[n]] else []);
      assert p(s[n]) ==> (kept + [s[n]])[..|kept|] == kept;
      assert !p(s[n]) ==> kept + [] == kept;
    }
  }

  /** ORDER BY on the matching rows of the table gives the matching records of the list. */
  lemma SelectedRecords(table: seq<Row>, key: Key, records: seq<Fields>, symbol: string)
    requires Holds(table, key, records)
    ensures FieldsOf(Sort(Filter(table, Where(key, symbol)), ByOrdinal())) == Filter(records, OfSymbol(symbol))
  {
    ByOrdinalOrders();
    WhereIsNarrower(table, key, symbol);
    SortFilter(Filter(table, OfKey(key)), ByOrdinal(), Where(key, symbol));
    WhereOnRows(key, records, symbol);
  }

  /** Every artifact done holds its payload's records; every other key holds what it held. */
  ghost predicate Upserted(before: seq<Row>, after: seq<Row>, runId: string, artifacts: map<string, Payload>, done: set<string>) {
    && done <= artifacts.Keys
    && (forall kind :: kind in done ==> Holds(after, Key(runId, kind), PayloadRecords(artifacts[kind])))
    && forall key: Key, records :: !(key.runId == runId && key.kind in done) && Holds(before, key, records) ==>
      Holds(after, key, records)
  }

  lemma NothingUpserted(table: seq<Row>, runId: string, artifacts: map<string, Payload>)
    ensures Upserted(table, table, runId, artifacts, {})
  {
  }

  /** One artifact more. */
  lemma UpsertOne(before: seq<Row>, table: seq<Row>, runId: string, artifacts: map<string, Payload>, done: set<string>, kind: string)
    requires Upserted(before, table, runId, artifacts, done) && kind in artifacts
    ensures Upserted(before, Filter(table, NotOfKey(Key(runId, kind))) + RowsOf(Key(runId, kind), PayloadRecords(artifacts[kind])),
                     runId, artifacts, done + {kind})
  {
    var key, records := Key(runId, kind), PayloadRecords(artifacts[kind]);
    var after := Filter(table, NotOfKey(key)) + RowsOf(key, records);
    ReplacedHolds(table, key, records);
    forall other: Key, held | other != key && Holds(table, other, held)
      ensures Holds(after, other, held)
    {
      OthersHold(table, key, records, other, held);
    }
    hide Holds;
  }

  class RowTable {
    var table: seq<Row>

    constructor ()
      ensures table == []
    {
      table := [];
    }

    /** `upsert_artifact_rows`: per artifact, delete the key's rows and copy the new ones. */
    method Upsert(runId: string, artifacts: map<string, Payload>, selected: set<string>) returns (counts: map<string, nat>)
      modifies this
      ensures counts.Keys == selected * artifacts.Keys
      ensures forall kind :: kind in counts ==> counts[kind] == |PayloadRecords(artifacts[kind])|
      ensures Upserted(old(table), table, runId, artifacts, counts.Keys)
    {
      counts := map[];
      var left := selected * artifacts.Keys;
      ghost var done: set<string> := {};
      NothingUpserted(table, runId, artifacts);
      hide Upserted, PayloadRecords, Filter;
      while left != {}
        invariant left <= selected * artifacts.Keys && counts.Keys == done == selected * artifacts.Keys - left
        invariant forall kind :: kind in counts ==> counts[kind] == |PayloadRecords(artifacts[kind])|
        invariant Upserted(old(table), table, runId, artifacts, done)
        decreases |left|
      {
        var kind :| kind in left;
        var key := Key(runId, kind);
        UpsertOne(old(table), table, runId, artifacts, done, kind);
        var rows := BuildRows(key, artifacts[kind]);
        table := Filter(table, NotOfKey(key)) + rows;
        counts := counts[kind := |rows|];
        left := left - {kind};
        done := done + {kind};
      }
    }

    /** `_read_artifact_rows_from_conn`, for a key whose rows are those of a list of records. */
    method Read(key: Key, symbol: string, limit: int, offset: int, n: int, ghost records: seq<Fields>) returns (r: seq<Fields>)
      requires Holds(table, key, records)
      ensures Picked(records, symbol, limit, offset, n, r)
    {
      SelectedRecords(table, key, records, symbol);
      hide Sort, Filter, Holds, EvenSample;
      var matching := FieldsOf(Sort(Filter(table, Where(key, symbol)), ByOrdinal()));
      if n > 0 {
        var total := |matching|;
        if total == 0 {
          return [];
        }
        if total > n {
          var indices := SelectDownsampleIndices(total, n);
          SampleInRange(indices, total, n);
          r := seq(|indices|, i requires 0 <= i < |indices| => matching[indices[i]]);
          return;
        }
      }
      r := Slice(matching, offset, limit);
    }
  }

  lemma SampleInRange(indices: seq<int>, total: int, n: int)
    requires 0 < n < total && EvenSample(indices, total, n)
    ensures |indices| == n + 1 && forall i :: 0 <= i <= n ==> 0 <= indices[i] < total
  {
  }

  lemma {:induction false} AllKept(rows: seq<Row>, p: Row -> bool)
    requires forall i :: 0 <= i < |rows| ==> p(rows[i])
    ensures Filter(rows, p) == rows
  {
    if |rows| > 0 {
      AllKept(rows[..|rows| - 1], p);
    }
  }

  lemma {:induction false} NoneKept(rows: seq<Row>, p: Row -> bool)
    requires forall i :: 0 <= i < |rows| ==> !p(rows[i])
    ensures Filter(rows, p) == []
  {
    if |rows| > 0 {
      NoneKept(rows[..|rows| - 1], p);
    }
  }

  /** After the replacement the key holds the new records. */
  lemma ReplacedHolds(before: seq<Row>, key: Key, records: seq<Fields>)
    ensures Holds(Filter(before, NotOfKey(key)) + RowsOf(key, records), key, records)
  {
    var kept, rows := Filter(before, NotOfKey(key)), RowsOf(key, records);
    FilterConcat(kept, rows, OfKey(key));
    forall i | 0 <= i < |kept|
      ensures !OfKey(key)(kept[i])
    {
      FilterMembers(before, NotOfKey(key), kept[i]);
    }
    NoneKept(kept, OfKey(key));
    AllKept(rows, OfKey(key));
    assert [] + rows == rows;
    ByOrdinalOrders();
    SortedIsFixed(rows, ByOrdinal());
  }

  /** The replacement does not touch another key. */
  lemma OthersHold(before: seq<Row>, key: Key, added: seq<Fields>, other: Key, records: seq<Fields>)
    requires other != key && Holds(before, other, records)
    ensures Holds(Filter(before, NotOfKey(key)) + RowsOf(key, added), other, records)
  {
    var kept, rows := Filter(before, NotOfKey(key)), RowsOf(key, added);
    FilterConcat(kept, rows, OfKey(other));
    NoneKept(rows, OfKey(other));
    FilterTwice(before, NotOfKey(key), OfKey(other));
    assert Filter(kept, OfKey(other)) + [] == Filter(kept, OfKey(other));
  }

  // ----- any sequence of upserts

  /** One upsert: the artifacts of a run, and which of their types it replaced. */
  datatype Op = Op(runId: string, artifacts: map<string, Payload>, done: set<string>)

  predicate Touches(op: Op, key: Key) {
    op.runId == key.runId && key.kind in op.done && key.kind in op.artifacts
  }

  /** The records of the latest payload written for the key. */
  function LatestRecords(ops: seq<Op>, key: Key): seq<Fields> {
    if |ops| == 0 then []
    else if Touches(ops[|ops| - 1], key) then PayloadRecords(ops[|ops| - 1].artifacts[key.kind])
    else LatestRecords(ops[..|ops| - 1], key)
  }

  /** The tables before, between and after the upserts, from an empty one. */
  ghost predicate History(ops: seq<Op>, tables: seq<seq<Row>>) {
    && |tables| == |ops| + 1 && tables[0] == []
    && forall i :: 0 <= i < |ops| ==> Upserted(tables[i], tables[i + 1], ops[i].runId, ops[i].artifacts, ops[i].done)
  }

  /** After any sequence of upserts the table holds, for every key, the records of its latest payload. */
  lemma {:induction false} LatestWins(ops: seq<Op>, tables: seq<seq<Row>>, key: Key)
    requires History(ops, tables)
    ensures Holds(tables[|ops|], key, LatestRecords(ops, key))
  {
    if |ops| > 0 {
      var n := |ops| - 1;
      LatestWins(ops[..n], tables[..n + 1], key);
      assert Upserted(tables[n], tables[n + 1], ops[n].runId, ops[n].artifacts, ops[n].done);
      assert key == Key(key.runId, key.kind);
      hide Holds;
    }
  }
}
