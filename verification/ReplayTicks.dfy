/**
 Signals that can be replayed, and the ticks an execution engine is fed: quotes from book
 snapshots and closes, trades, and closing quotes for signals later than every quote.
 A missing number is one that is absent or not finite.
 */
module ReplayTicks {
  import opened Wrappers
  import opened Sorting

  /** Instrument key to instrument id; several keys may share one id. */
  type Instruments = map<string, string>

  datatype SignalRow = SignalRow(side: string, instId: string, tsMs: Option<int>, fairValue: Option<real>)

  datatype ReplaySignal = ReplaySignal(tsNs: int, side: string, key: string, fairValue: Option<real>)

  datatype BookEvent = BookEvent(symbol: string, tsMs: int, bid: Option<real>, ask: Option<real>,
                                 bidSize: Option<real>, askSize: Option<real>)

  datatype PriceRow = PriceRow(symbol: string, tsMs: Option<int>, close: Option<real>)

  datatype TradeRow = TradeRow(symbol: string, tsMs: Option<int>, price: Option<real>, size: Option<real>, side: string)

  datatype Tick =
    | QuoteTick(id: string, ts: int, bid: real, ask: real, bidSize: real, askSize: real)
    | TradeTick(id: string, ts: int, price: real, size: real, seller: bool)

  const NS: int := 1000000

  // ----- which signals are replayed

  datatype Verdict = UnsupportedSide | UnmappedSymbol | InvalidTimestamp | Replayable

  function KeyOf(row: SignalRow, primary: string): string {
    if row.instId != "" then Upper(row.instId) else primary
  }

  function Judge(primary: string, mapped: set<string>): SignalRow -> Verdict {
    (row: SignalRow) =>
      if Lower(row.side) != "buy" && Lower(row.side) != "sell" then UnsupportedSide
      else if KeyOf(row, primary) !in mapped then UnmappedSymbol
      else if row.tsMs.None? then InvalidTimestamp
      else Replayable
  }

  function ToReplay(primary: string, mapped: set<string>): SignalRow -> seq<ReplaySignal> {
    (row: SignalRow) =>
      if Judge(primary, mapped)(row) == Replayable && row.tsMs.Some?
      then [ReplaySignal(row.tsMs.value * NS, Lower(row.side), KeyOf(row, primary),
                         if row.fairValue.Some? && row.fairValue.value > 0.0 then row.fairValue else None)]
      else []
  }

  function ByTime(): (ReplaySignal, ReplaySignal) -> bool {
    (a: ReplaySignal, b: ReplaySignal) => a.tsNs <= b.tsNs
  }

  datatype Coverage = Coverage(total: nat, buySell: nat, replayable: nat,
                               unmapped: nat, unsupportedSide: nat, invalidTimestamp: nat,
                               replayedSymbols: set<string>, skippedSymbols: set<string>)

  function Symbols(signals: seq<ReplaySignal>): set<string> {
    set s | s in signals && s.key != "" :: s.key
  }

  /** The instruments of the rows that were skipped as unmapped. */
  function Skipped(rows: seq<SignalRow>, primary: string, mapped: set<string>): set<string> {
    set row | row in rows && Judge(primary, mapped)(row) == UnmappedSymbol && row.instId != "" :: Upper(row.instId)
  }

  lemma SkippedSnoc(rows: seq<SignalRow>, i: nat, primary: string, mapped: set<string>)
    requires i < |rows|
    ensures Skipped(rows[..i + 1], primary, mapped) == Skipped(rows[..i], primary, mapped) +
      (if Judge(primary, mapped)(rows[i]) == UnmappedSymbol && rows[i].instId != "" then {Upper(rows[i].instId)} else {})
  {
    assert rows[..i + 1] == rows[..i] + [rows[i]];
  }

  lemma SymbolsSorted(signals: seq<ReplaySignal>)
    ensures Symbols(Sort(signals, ByTime())) == Symbols(signals)
  {
    forall s
      ensures s in Sort(signals, ByTime()) <==> s in signals
    {
      SortMembers(signals, ByTime(), s);
    }
  }

  function Having(primary: string, mapped: set<string>, v: Verdict): SignalRow -> bool {
    (row: SignalRow) => Judge(primary, mapped)(row) == v
  }

  /** How many rows were given each verdict. */
  function Tally(rows: seq<SignalRow>, primary: string, mapped: set<string>, v: Verdict): nat {
    |Filter(rows, Having(primary, mapped, v))|
  }

  lemma TallySnoc(rows: seq<SignalRow>, i: nat, primary: string, mapped: set<string>, v: Verdict)
    requires i < |rows|
    ensures Tally(rows[..i + 1], primary, mapped, v) ==
      Tally(rows[..i], primary, mapped, v) + (if Judge(primary, mapped)(rows[i]) == v then 1 else 0)
  {
    FilterSnoc(rows, i, Having(primary, mapped, v));
  }

  /** The body of the loop over the rows, up to the verdict. */
  method JudgeRow(row: SignalRow, primary: string, mapped: set<string>) returns (verdict: Verdict, found: seq<ReplaySignal>)
    ensures verdict == Judge(primary, mapped)(row) && found == ToReplay(primary, mapped)(row)
  {
    hide Lower, Upper;
    var side := Lower(row.side);
    if side != "buy" && side != "sell" {
      return UnsupportedSide, [];
    }
    var key := if row.instId != "" then Upper(row.instId) else primary;
    if key !in mapped {
      return UnmappedSymbol, [];
    }
    if row.tsMs.None? {
      return InvalidTimestamp, [];
    }
    var fair := if row.fairValue.Some? && row.fairValue.value > 0.0 then row.fairValue else None;
    return Replayable, [ReplaySignal(row.tsMs.value * NS, side, key, fair)];
  }

  /** A row to buy or sell a mapped instrument at a time. */
  function IsReplayable(primary: string, mapped: set<string>): SignalRow -> bool {
    (row: SignalRow) => Lower(row.side) in {"buy", "sell"} && KeyOf(row, primary) in mapped && row.tsMs.Some?
  }

  /** The row's side, instrument and time in nanoseconds, and its fair value when that is positive. */
  function StandsFor(primary: string): (SignalRow, ReplaySignal) -> bool {
    (row: SignalRow, s: ReplaySignal) =>
      && row.tsMs.Some? && s.tsNs == 1000000 * row.tsMs.value && s.side == Lower(row.side)
      && s.key == (if row.instId == "" then primary else Upper(row.instId))
      && match row.fairValue {
        case Some(v) => if v > 0.0 then s.fairValue == Some(v) else s.fairValue == None
        case None => s.fairValue == None
      }
  }

  /** The replayed signals are one for each replayable row, in time order. */
  ghost predicate ReplayedFrom(rows: seq<SignalRow>, primary: string, mapped: set<string>, replay: seq<ReplaySignal>) {
    && (forall i, j :: 0 <= i < j < |replay| ==> replay[i].tsNs <= replay[j].tsNs)
    && exists found: seq<ReplaySignal> ::
      multiset(replay) == multiset(found) && OneForEach(rows, found, IsReplayable(primary, mapped), StandsFor(primary))
  }

  lemma RowReplayed(row: SignalRow, primary: string, mapped: set<string>)
    ensures var found := ToReplay(primary, mapped)(row);
      if IsReplayable(primary, mapped)(row) then |found| == 1 && StandsFor(primary)(row, found[0]) else found == []
  {
    hide Upper, Lower;
    assert Judge(primary, mapped)(row) == Replayable <==> IsReplayable(primary, mapped)(row);
  }

  lemma SignalsReplayedFrom(rows: seq<SignalRow>, primary: string, mapped: set<string>)
    ensures ReplayedFrom(rows, primary, mapped, Sort(FlatMap(rows, ToReplay(primary, mapped)), ByTime()))
  {
    var found := FlatMap(rows, ToReplay(primary, mapped));
    forall row | row in rows
      ensures var found := ToReplay(primary, mapped)(row);
        if IsReplayable(primary, mapped)(row) then |found| == 1 && StandsFor(primary)(row, found[0]) else found == []
    {
      RowReplayed(row, primary, mapped);
    }
    hide FlatMap, ToReplay, IsReplayable, StandsFor, Sort;
    var index := FlatMapMatches(rows, ToReplay(primary, mapped), IsReplayable(primary, mapped), StandsFor(primary));
    assert OneForEach(rows, found, IsReplayable(primary, mapped), StandsFor(primary));
    SortPermutes(found, ByTime());
    SortSorts(found, ByTime());
  }

  function BadSide(): SignalRow -> bool {
    (row: SignalRow) => Lower(row.side) !in {"buy", "sell"}
  }

  function Unmapped(primary: string, mapped: set<string>): SignalRow -> bool {
    (row: SignalRow) =>
      Lower(row.side) in {"buy", "sell"} && (if row.instId == "" then primary else Upper(row.instId)) !in mapped
  }

  function Untimed(primary: string, mapped: set<string>): SignalRow -> bool {
    (row: SignalRow) =>
      && Lower(row.side) in {"buy", "sell"} && (if row.instId == "" then primary else Upper(row.instId)) in mapped
      && row.tsMs.None?
  }

  lemma {:induction false} FilterSame<T>(s: seq<T>, p: T -> bool, q: T -> bool)
    requires forall x :: x in s ==> p(x) == q(x)
    ensures Filter(s, p) == Filter(s, q)
  {
    if |s| > 0 {
      FilterSame(s[..|s| - 1], p, q);
    }
  }

  lemma JudgeMeans(row: SignalRow, primary: string, mapped: set<string>)
    ensures Judge(primary, mapped)(row) == UnsupportedSide <==> BadSide()(row)
    ensures Judge(primary, mapped)(row) == UnmappedSymbol <==> Unmapped(primary, mapped)(row)
    ensures Judge(primary, mapped)(row) == InvalidTimestamp <==> Untimed(primary, mapped)(row)
  {
    hide Lower, Upper;
  }

  /** The counters count the rows without a supported side, without a mapped instrument, and without a time. */
  lemma TalliesMean(rows: seq<SignalRow>, primary: string, mapped: set<string>)
    ensures Tally(rows, primary, mapped, UnsupportedSide) == |Filter(rows, BadSide())|
    ensures Tally(rows, primary, mapped, UnmappedSymbol) == |Filter(rows, Unmapped(primary, mapped))|
    ensures Tally(rows, primary, mapped, InvalidTimestamp) == |Filter(rows, Untimed(primary, mapped))|
  {
    forall row
      ensures Having(primary, mapped, UnsupportedSide)(row) == BadSide()(row)
      ensures Having(primary, mapped, UnmappedSymbol)(row) == Unmapped(primary, mapped)(row)
      ensures Having(primary, mapped, InvalidTimestamp)(row) == Untimed(primary, mapped)(row)
    {
      JudgeMeans(row, primary, mapped);
    }
    hide Judge, BadSide, Unmapped, Untimed, Having;
    FilterSame(rows, Having(primary, mapped, UnsupportedSide), BadSide());
    FilterSame(rows, Having(primary, mapped, UnmappedSymbol), Unmapped(primary, mapped));
    FilterSame(rows, Having(primary, mapped, InvalidTimestamp), Untimed(primary, mapped));
  }

  /** `_nautilus_replay_signals`. */
  method ReplaySignals(rows: seq<SignalRow>, primary: string, mapped: set<string>)
    returns (replay: seq<ReplaySignal>, coverage: Coverage)
    ensures replay == Sort(FlatMap(rows, ToReplay(primary, mapped)), ByTime())
    ensures ReplayedFrom(rows, primary, mapped, replay)
    ensures coverage.total == |rows| && coverage.replayable == |replay|
    ensures coverage.total == coverage.buySell + coverage.unsupportedSide
    ensures coverage.buySell == coverage.replayable + coverage.unmapped + coverage.invalidTimestamp
    ensures coverage.unsupportedSide == |Filter(rows, BadSide())|
    ensures coverage.unmapped == |Filter(rows, Unmapped(primary, mapped))|
    ensures coverage.invalidTimestamp == |Filter(rows, Untimed(primary, mapped))|
    ensures coverage.replayedSymbols == Symbols(replay) && coverage.skippedSymbols == Skipped(rows, primary, mapped)
  {
    SignalsReplayedFrom(rows, primary, mapped);
    TalliesMean(rows, primary, mapped);
    hide FlatMap, Sort, CountedTo, Judge, ToReplay, Tally, Skipped, ReplayedFrom, Filter, BadSide, Unmapped, Untimed;
    var found: seq<ReplaySignal> := [];
    coverage := Coverage(0, 0, 0, 0, 0, 0, {}, {});
    NothingCounted(rows, primary, mapped);
    for i := 0 to |rows|
      invariant CountedTo(rows[..i], primary, mapped, found, coverage)
    {
      var verdict, more := JudgeRow(rows[i], primary, mapped);
      CountedSnoc(rows, i, primary, mapped, found, coverage);
      found := found + more;
      coverage := Counted(coverage, rows[i], verdict, more);
    }
    assert rows[..|rows|] == rows;
    CountedMeans(rows, primary, mapped, found, coverage);
    replay := Sort(found, ByTime());
    SortPermutes(found, ByTime());
    SymbolsSorted(found);
    coverage := coverage.(replayable := |replay|);
  }

  /** The counters after one more row. */
  function Counted(c: Coverage, row: SignalRow, verdict: Verdict, found: seq<ReplaySignal>): Coverage {
    var d := c.(total := c.total + 1);
    match verdict
    case UnsupportedSide => d.(unsupportedSide := d.unsupportedSide + 1)
    case UnmappedSymbol =>
      d.(buySell := d.buySell + 1, unmapped := d.unmapped + 1,
         skippedSymbols := d.skippedSymbols + (if row.instId != "" then {Upper(row.instId)} else {}))
    case InvalidTimestamp => d.(buySell := d.buySell + 1, invalidTimestamp := d.invalidTimestamp + 1)
    case Replayable =>
      d.(buySell := d.buySell + 1, replayable := d.replayable + |found|,
         replayedSymbols := d.replayedSymbols + Symbols(found))
  }

  /** The signals found in the rows, and the counters over them. */
  ghost predicate CountedTo(rows: seq<SignalRow>, primary: string, mapped: set<string>, found: seq<ReplaySignal>, c: Coverage) {
    && found == FlatMap(rows, ToReplay(primary, mapped))
    && c.total == |rows| == c.buySell + c.unsupportedSide
    && c.replayable == |found| && c.buySell == |found| + c.unmapped + c.invalidTimestamp
    && c.unsupportedSide == Tally(rows, primary, mapped, UnsupportedSide)
    && c.unmapped == Tally(rows, primary, mapped, UnmappedSymbol)
    && c.invalidTimestamp == Tally(rows, primary, mapped, InvalidTimestamp)
    && c.replayedSymbols == Symbols(found) && c.skippedSymbols == Skipped(rows, primary, mapped)
  }

  lemma NothingCounted(rows: seq<SignalRow>, primary: string, mapped: set<string>)
    ensures CountedTo(rows[..0], primary, mapped, [], Coverage(0, 0, 0, 0, 0, 0, {}, {}))
  {
  }

  lemma CountedMeans(rows: seq<SignalRow>, primary: string, mapped: set<string>, found: seq<ReplaySignal>, c: Coverage)
    requires CountedTo(rows, primary, mapped, found, c)
    ensures found == FlatMap(rows, ToReplay(primary, mapped))
    ensures c.total == |rows| == c.buySell + c.unsupportedSide
    ensures c.replayable == |found| && c.buySell == |found| + c.unmapped + c.invalidTimestamp
    ensures c.unsupportedSide == Tally(rows, primary, mapped, UnsupportedSide)
    ensures c.unmapped == Tally(rows, primary, mapped, UnmappedSymbol)
    ensures c.invalidTimestamp == Tally(rows, primary, mapped, InvalidTimestamp)
    ensures c.replayedSymbols == Symbols(found) && c.skippedSymbols == Skipped(rows, primary, mapped)
  {
  }

  lemma SymbolsConcat(a: seq<ReplaySignal>, b: seq<ReplaySignal>)
    ensures Symbols(a + b) == Symbols(a) + Symbols(b)
  {
  }

  lemma RowFound(row: SignalRow, primary: string, mapped: set<string>)
    ensures |ToReplay(primary, mapped)(row)| == if Judge(primary, mapped)(row) == Replayable then 1 else 0
  {
  }

  lemma CountedSnoc(rows: seq<SignalRow>, i: nat, primary: string, mapped: set<string>, found: seq<ReplaySignal>, c: Coverage)
    requires i < |rows| && CountedTo(rows[..i], primary, mapped, found, c)
    ensures var more := ToReplay(primary, mapped)(rows[i]);
      CountedTo(rows[..i + 1], primary, mapped, found + more, Counted(c, rows[i], Judge(primary, mapped)(rows[i]), more))
  {
    FlatMapSnoc(rows, i, ToReplay(primary, mapped));
    TallySnoc(rows, i, primary, mapped, UnsupportedSide);
    TallySnoc(rows, i, primary, mapped, UnmappedSymbol);
    TallySnoc(rows, i, primary, mapped, InvalidTimestamp);
    SkippedSnoc(rows, i, primary, mapped);
    SymbolsConcat(found, ToReplay(primary, mapped)(rows[i]));
    RowFound(rows[i], primary, mapped);
    hide FlatMap, Tally, Skipped, Judge, ToReplay, Symbols, Upper;
    assert |ToReplay(primary, mapped)(rows[i])| == 0 ==> Symbols(ToReplay(primary, mapped)(rows[i])) == {} by {
      NoSymbols();
    }
  }

  lemma NoSymbols()
    ensures Symbols([]) == {}
  {
  }

  // ----- ticks from the artifacts

  predicate Positive(x: Option<real>) {
    x.Some? && x.value > 0.0
  }

  function Max(a: real, b: real): real {
    if a < b then b else a
  }

  function Abs(x: real): real {
    if x < 0.0 then -x else x
  }

  /** A quote around a price. */
  function QuoteAround(id: string, ts: int, price: real): Tick {
    var spread := Max(Abs(price) * 0.0001, 0.1);
    QuoteTick(id, ts, Max(price - spread / 2.0, 0.000001), price + spread / 2.0, 1.0, 1.0)
  }

  function FromBook(inst: Instruments): BookEvent -> seq<Tick> {
    (e: BookEvent) =>
      if Upper(e.symbol) in inst && Positive(e.bid) && Positive(e.ask) && Positive(e.bidSize) && Positive(e.askSize)
         && e.bid.value < e.ask.value
      then [QuoteTick(inst[Upper(e.symbol)], e.tsMs * NS, e.bid.value, e.ask.value, e.bidSize.value, e.askSize.value)]
      else []
  }

  function FromPrice(inst: Instruments): PriceRow -> seq<Tick> {
    (row: PriceRow) =>
      if Upper(row.symbol) in inst && Positive(row.close) && row.tsMs.Some?
      then [QuoteAround(inst[Upper(row.symbol)], row.tsMs.value * NS, row.close.value)]
      else []
  }

  function FromTrade(inst: Instruments): TradeRow -> seq<Tick> {
    (row: TradeRow) =>
      if Upper(row.symbol) in inst && row.tsMs.Some? && Positive(row.price) && Positive(row.size)
      then [TradeTick(inst[Upper(row.symbol)], row.tsMs.value * NS, row.price.value, row.size.value,
                      Lower(row.side) == "sell" || Lower(row.side) == "ask")]
      else []
  }

  /** Symbols with at least one usable book quote; their closes are not turned into quotes. */
  function BookSymbols(inst: Instruments, book: seq<BookEvent>): set<string> {
    set e | e in book && FromBook(inst)(e) != [] :: Upper(e.symbol)
  }

  function PriceWanted(inst: Instruments, quoted: set<string>): PriceRow -> bool {
    (row: PriceRow) => row.tsMs.Some? && Upper(row.symbol) in inst && Upper(row.symbol) !in quoted
  }

  function ByTimeAndSymbol(): (PriceRow, PriceRow) -> bool {
    (a: PriceRow, b: PriceRow) =>
      b.tsMs.None? || (a.tsMs.Some? &&
                       (a.tsMs.value < b.tsMs.value || (a.tsMs == b.tsMs && StringLe(Upper(a.symbol), Upper(b.symbol)))))
  }

  /** `_nautilus_price_frame_for_smoke`. */
  function PriceFrame(inst: Instruments, quoted: set<string>, prices: seq<PriceRow>): seq<PriceRow> {
    Sort(Filter(prices, PriceWanted(inst, quoted)), ByTimeAndSymbol())
  }

  function BaseTicks(inst: Instruments, book: seq<BookEvent>, prices: seq<PriceRow>, trades: seq<TradeRow>): seq<Tick> {
    FlatMap(book, FromBook(inst))
    + FlatMap(PriceFrame(inst, BookSymbols(inst, book), prices), FromPrice(inst))
    + FlatMap(trades, FromTrade(inst))
  }

  predicate IsQuote(t: Tick, id: string) {
    t.QuoteTick? && t.id == id
  }

  /** The latest quote time of an instrument, and -1 when there is none later. */
  function LastQuote(ticks: seq<Tick>, id: string): int {
    if |ticks| == 0 then -1
    else
      var n := |ticks| - 1;
      var before := LastQuote(ticks[..n], id);
      if IsQuote(ticks[n], id) && before < ticks[n].ts then ticks[n].ts else before
  }

  /** The ticks so far and the closing quotes of the signals. */
  function Closing(inst: Instruments, sofar: seq<Tick>, signals: seq<ReplaySignal>): seq<Tick>
    decreases |signals|
  {
    if |signals| == 0 then sofar
    else
      var s := signals[0];
      if s.key in inst && LastQuote(sofar, inst[s.key]) < s.tsNs
      then Closing(inst, sofar + [ClosingQuote(inst[s.key], s)], signals[1..])
      else Closing(inst, sofar, signals[1..])
  }

  function ClosingQuote(id: string, s: ReplaySignal): Tick {
    QuoteAround(id, s.tsNs, if Positive(s.fairValue) then s.fairValue.value else 1.0)
  }

  function AllTicks(inst: Instruments, book: seq<BookEvent>, prices: seq<PriceRow>, trades: seq<TradeRow>,
                    signals: seq<ReplaySignal>): seq<Tick> {
    Closing(inst, BaseTicks(inst, book, prices, trades), signals)
  }

  function ByTs(): (Tick, Tick) -> bool {
    (a: Tick, b: Tick) => a.ts <= b.ts
  }

  lemma ByTsOrders()
    ensures TotalPreorder(ByTs())
  {
  }

  // ----- lengths: the effective cap is never reached

  lemma BaseLength(inst: Instruments, book: seq<BookEvent>, prices: seq<PriceRow>, trades: seq<TradeRow>)
    ensures |BaseTicks(inst, book, prices, trades)| <= |book| + |prices| + |trades|
  {
    var frame := PriceFrame(inst, BookSymbols(inst, book), prices);
    SortPermutes(Filter(prices, PriceWanted(inst, BookSymbols(inst, book))), ByTimeAndSymbol());
    FlatMapLength(book, FromBook(inst));
    FlatMapLength(frame, FromPrice(inst));
    FlatMapLength(trades, FromTrade(inst));
  }

  lemma {:induction false} ClosingLength(inst: Instruments, sofar: seq<Tick>, signals: seq<ReplaySignal>)
    ensures |sofar| <= |Closing(inst, sofar, signals)| <= |sofar| + |signals|
    ensures sofar <= Closing(inst, sofar, signals)
    decreases |signals|
  {
    if |signals| > 0 {
      var s := signals[0];
      if s.key in inst && LastQuote(sofar, inst[s.key]) < s.tsNs {
        ClosingLength(inst, sofar + [ClosingQuote(inst[s.key], s)], signals[1..]);
      } else {
        ClosingLength(inst, sofar, signals[1..]);
      }
    }
  }

  // ----- what the closing quotes reach

  /** Some quote of the instrument is at or after the time. */
  ghost predicate Reached(ticks: seq<Tick>, id: string, ts: int) {
    exists j :: 0 <= j < |ticks| && IsQuote(ticks[j], id) && ts <= ticks[j].ts
  }

  lemma {:induction false} LastQuoteReached(ticks: seq<Tick>, id: string)
    ensures LastQuote(ticks, id) >= -1
    ensures LastQuote(ticks, id) >= 0 ==> Reached(ticks, id, LastQuote(ticks, id))
    ensures forall j :: 0 <= j < |ticks| && IsQuote(ticks[j], id) ==> ticks[j].ts <= LastQuote(ticks, id)
  {
    if |ticks| > 0 {
      var n := |ticks| - 1;
      LastQuoteReached(ticks[..n], id);
      var before := LastQuote(ticks[..n], id);
      if before >= 0 {
        var j :| 0 <= j < n && IsQuote(ticks[..n][j], id) && before <= ticks[..n][j].ts;
        assert ticks[j] == ticks[..n][j];
      }
      forall j | 0 <= j < |ticks| && IsQuote(ticks[j], id)
        ensures ticks[j].ts <= LastQuote(ticks, id)
      {
        assert j < n ==> ticks[..n][j] == ticks[j];
      }
    }
  }

  lemma ReachedInLonger(ticks: seq<Tick>, longer: seq<Tick>, id: string, ts: int)
    requires ticks <= longer && Reached(ticks, id, ts)
    ensures Reached(longer, id, ts)
  {
    var j :| 0 <= j < |ticks| && IsQuote(ticks[j], id) && ts <= ticks[j].ts;
    assert longer[j] == ticks[j];
  }

  ghost predicate MappedSignal(inst: Instruments, s: ReplaySignal, id: string) {
    s.key in inst && inst[s.key] == id
  }

  /** A signal of the instrument at a non-negative time is among the signals. */
  ghost predicate HasSignalTime(inst: Instruments, signals: seq<ReplaySignal>, id: string) {
    exists i :: 0 <= i < |signals| && MappedSignal(inst, signals[i], id) && signals[i].tsNs >= 0
  }

  lemma OneQuoteMore(sofar: seq<Tick>, t: Tick, id: string, ts: int)
    ensures Reached(sofar + [t], id, ts) <==> Reached(sofar, id, ts) || (IsQuote(t, id) && ts <= t.ts)
  {
    var more := sofar + [t];
    assert more[|sofar|] == t;
    if Reached(sofar, id, ts) {
      ReachedInLonger(sofar, more, id, ts);
    }
    if Reached(more, id, ts) && !(IsQuote(t, id) && ts <= t.ts) {
      var j :| 0 <= j < |more| && IsQuote(more[j], id) && ts <= more[j].ts;
      assert sofar[j] == more[j];
    }
  }

  /** Every signal at a non-negative time is reached by some quote of its instrument. */
  lemma {:induction false} ClosingReaches(inst: Instruments, sofar: seq<Tick>, signals: seq<ReplaySignal>, i: nat)
    requires i < |signals| && signals[i].key in inst && signals[i].tsNs >= 0
    ensures Reached(Closing(inst, sofar, signals), inst[signals[i].key], signals[i].tsNs)
    decreases |signals|
  {
    var s := signals[0];
    var next := if s.key in inst && LastQuote(sofar, inst[s.key]) < s.tsNs
                then sofar + [ClosingQuote(inst[s.key], s)] else sofar;
    assert Closing(inst, sofar, signals) == Closing(inst, next, signals[1..]);
    if i > 0 {
      ClosingReaches(inst, next, signals[1..], i - 1);
    } else {
      var id := inst[s.key];
      LastQuoteReached(sofar, id);
      if LastQuote(sofar, id) < s.tsNs {
        OneQuoteMore(sofar, ClosingQuote(id, s), id, s.tsNs);
      }
      assert Reached(next, id, s.tsNs);
      ClosingLength(inst, next, signals[1..]);
      ReachedInLonger(next, Closing(inst, next, signals[1..]), id, s.tsNs);
    }
  }

  /** A quote that is not in the base stands for a signal at a non-negative time. */
  lemma {:induction false} ClosingReachesOnly(inst: Instruments, sofar: seq<Tick>, signals: seq<ReplaySignal>,
                                              id: string, ts: int)
    requires Reached(Closing(inst, sofar, signals), id, ts)
    ensures Reached(sofar, id, ts) || HasSignalTime(inst, signals, id)
    decreases |signals|
  {
    if |signals| > 0 {
      var s := signals[0];
      if s.key in inst && LastQuote(sofar, inst[s.key]) < s.tsNs {
        LastQuoteReached(sofar, inst[s.key]);
        assert s.tsNs >= 0;
        OneQuoteMore(sofar, ClosingQuote(inst[s.key], s), id, ts);
        ClosingReachesOnly(inst, sofar + [ClosingQuote(inst[s.key], s)], signals[1..], id, ts);
        assert inst[s.key] == id ==> MappedSignal(inst, signals[0], id);
      } else {
        ClosingReachesOnly(inst, sofar, signals[1..], id, ts);
      }
      if HasSignalTime(inst, signals[1..], id) {
        var i :| 0 <= i < |signals[1..]| && MappedSignal(inst, signals[1..][i], id) && signals[1..][i].tsNs >= 0;
        assert signals[i + 1] == signals[1..][i];
      }
    }
  }

  /**
   Exactly when a time is reached for an instrument: some base quote reaches it, or it is
   negative or at most a signal's time and that instrument has a signal at a non-negative time.
   */
  lemma ClosingReachesExactly(inst: Instruments, base: seq<Tick>, signals: seq<ReplaySignal>, i: nat)
    requires i < |signals| && signals[i].key in inst
    ensures Reached(Closing(inst, base, signals), inst[signals[i].key], signals[i].tsNs) <==>
      Reached(base, inst[signals[i].key], signals[i].tsNs) || HasSignalTime(inst, signals, inst[signals[i].key])
  {
    var s, id := signals[i], inst[signals[i].key];
    var all := Closing(inst, base, signals);
    ClosingLength(inst, base, signals);
    if Reached(base, id, s.tsNs) {
      ReachedInLonger(base, all, id, s.tsNs);
    } else if HasSignalTime(inst, signals, id) {
      if s.tsNs >= 0 {
        ClosingReaches(inst, base, signals, i);
      } else {
        var j :| 0 <= j < |signals| && MappedSignal(inst, signals[j], id) && signals[j].tsNs >= 0;
        ClosingReaches(inst, base, signals, j);
        var k :| 0 <= k < |all| && IsQuote(all[k], id) && signals[j].tsNs <= all[k].ts;
        assert s.tsNs <= all[k].ts;
      }
    } else if Reached(all, id, s.tsNs) {
      ClosingReachesOnly(inst, base, signals, id, s.tsNs);
      assert false;
    }
  }

  // ----- every quote is well formed

  ghost predicate GoodTick(t: Tick) {
    if t.QuoteTick? then 0.0 < t.bid < t.ask && t.bidSize > 0.0 && t.askSize > 0.0
    else t.price > 0.0 && t.size > 0.0
  }

  lemma QuoteAroundGood(id: string, ts: int, price: real)
    requires price > 0.0
    ensures GoodTick(QuoteAround(id, ts, price))
  {
  }

  lemma FlatMapGood<S>(s: seq<S>, f: S -> seq<Tick>)
    requires forall x, t :: x in s && t in f(x) ==> GoodTick(t)
    ensures forall t :: t in FlatMap(s, f) ==> GoodTick(t)
  {
    forall t | t in FlatMap(s, f)
      ensures GoodTick(t)
    {
      FlatMapMembers(s, f, t);
    }
  }

  lemma {:induction false} ClosingGood(inst: Instruments, sofar: seq<Tick>, signals: seq<ReplaySignal>)
    requires forall t :: t in sofar ==> GoodTick(t)
    ensures forall t :: t in Closing(inst, sofar, signals) ==> GoodTick(t)
    decreases |signals|
  {
    if |signals| > 0 {
      var s := signals[0];
      if s.key in inst && LastQuote(sofar, inst[s.key]) < s.tsNs {
        QuoteAroundGood(inst[s.key], s.tsNs, if Positive(s.fairValue) then s.fairValue.value else 1.0);
        ClosingGood(inst, sofar + [ClosingQuote(inst[s.key], s)], signals[1..]);
      } else {
        ClosingGood(inst, sofar, signals[1..]);
      }
    }
  }

  /** Bids are positive and below asks, prices and sizes are positive. */
  lemma TicksGood(inst: Instruments, book: seq<BookEvent>, prices: seq<PriceRow>, trades: seq<TradeRow>,
                  signals: seq<ReplaySignal>)
    ensures forall t :: t in AllTicks(inst, book, prices, trades, signals) ==> GoodTick(t)
  {
    var frame := PriceFrame(inst, BookSymbols(inst, book), prices);
    forall row, t | row in frame && t in FromPrice(inst)(row)
      ensures GoodTick(t)
    {
      QuoteAroundGood(inst[Upper(row.symbol)], row.tsMs.value * NS, row.close.value);
    }
    FlatMapGood(book, FromBook(inst));
    FlatMapGood(frame, FromPrice(inst));
    FlatMapGood(trades, FromTrade(inst));
    ClosingGood(inst, BaseTicks(inst, book, prices, trades), signals);
  }

  // ----- where the ticks come from

  /** A mapped snapshot with four positive numbers, whose bid is below its ask. */
  function Usable(inst: Instruments): BookEvent -> bool {
    (e: BookEvent) =>
      && Upper(e.symbol) in inst
      && e.bid.Some? && e.ask.Some? && e.bidSize.Some? && e.askSize.Some?
      && 0.0 < e.bid.value < e.ask.value && e.bidSize.value > 0.0 && e.askSize.value > 0.0
  }

  function OwnQuote(inst: Instruments): (BookEvent, Tick) -> bool {
    (e: BookEvent, t: Tick) =>
      && Usable(inst)(e)
      && t == QuoteTick(inst[Upper(e.symbol)], 1000000 * e.tsMs, e.bid.value, e.ask.value, e.bidSize.value, e.askSize.value)
  }

  /** No snapshot of the symbol is usable. */
  ghost predicate NoBook(inst: Instruments, book: seq<BookEvent>, symbol: string) {
    forall e :: e in book && Upper(e.symbol) == symbol ==> !Usable(inst)(e)
  }

  /** A positive close of a mapped symbol, at a time, when no snapshot of the symbol is usable. */
  ghost function Quotable(inst: Instruments, book: seq<BookEvent>): PriceRow -> bool {
    (row: PriceRow) =>
      && Upper(row.symbol) in inst && row.tsMs.Some? && row.close.Some? && row.close.value > 0.0
      && NoBook(inst, book, Upper(row.symbol))
  }

  /**
   A quote of one unit around a price: the ask is half a spread above it, where the spread
   is the larger of a basis point and a tenth, and the bid is as far below, but at least a
   millionth.
   */
  predicate Surrounds(t: Tick, price: real) {
    && t.QuoteTick? && t.bidSize == 1.0 && t.askSize == 1.0
    && var spread := 2.0 * (t.ask - price);
    && spread >= 0.1 && spread * 10000.0 >= price && (spread == 0.1 || spread * 10000.0 == price)
    && t.bid >= 0.000001 && (t.bid == 0.000001 || price - t.bid == t.ask - price) && price - t.bid <= t.ask - price
  }

  function AroundClose(inst: Instruments): (PriceRow, Tick) -> bool {
    (row: PriceRow, t: Tick) =>
      && Upper(row.symbol) in inst && row.tsMs.Some? && row.close.Some?
      && IsQuote(t, inst[Upper(row.symbol)]) && t.ts == 1000000 * row.tsMs.value && Surrounds(t, row.close.value)
  }

  function Traded(inst: Instruments): TradeRow -> bool {
    (row: TradeRow) =>
      && Upper(row.symbol) in inst && row.tsMs.Some?
      && row.price.Some? && row.price.value > 0.0 && row.size.Some? && row.size.value > 0.0
  }

  function OwnTrade(inst: Instruments): (TradeRow, Tick) -> bool {
    (row: TradeRow, t: Tick) =>
      && Traded(inst)(row)
      && t == TradeTick(inst[Upper(row.symbol)], 1000000 * row.tsMs.value, row.price.value, row.size.value,
                        Lower(row.side) in {"sell", "ask"})
  }

  /** The closing quote of a signal, around its fair value or, without one, around 1. */
  ghost predicate ClosesFor(inst: Instruments, s: ReplaySignal, t: Tick) {
    && s.key in inst && IsQuote(t, inst[s.key]) && t.ts == s.tsNs
    && Surrounds(t, if s.fairValue.Some? && s.fairValue.value > 0.0 then s.fairValue.value else 1.0)
  }

  /** A closing quote of an earlier signal than the i-th is at or after the time. */
  ghost predicate ClosedEarlier(closing: seq<Tick>, index: seq<nat>, i: nat, id: string, ts: int)
    requires |index| == |closing|
  {
    exists k :: 0 <= k < |closing| && index[k] < i && IsQuote(closing[k], id) && ts <= closing[k].ts
  }

  /** Signal i gets a closing quote: its time is not negative, and no base quote or earlier closing quote reaches it. */
  ghost predicate NeedsClosing(inst: Instruments, base: seq<Tick>, signals: seq<ReplaySignal>, closing: seq<Tick>,
                               index: seq<nat>, i: nat)
    requires i < |signals| && |index| == |closing|
  {
    var s := signals[i];
    && s.key in inst && s.tsNs >= 0
    && !Reached(base, inst[s.key], s.tsNs) && !ClosedEarlier(closing, index, i, inst[s.key], s.tsNs)
  }

  ghost predicate ClosedBy(inst: Instruments, base: seq<Tick>, signals: seq<ReplaySignal>, closing: seq<Tick>, index: seq<nat>) {
    && |index| == |closing|
    && (forall k, m :: 0 <= k < m < |index| ==> index[k] < index[m])
    && (forall k :: 0 <= k < |index| ==> index[k] < |signals| && ClosesFor(inst, signals[index[k]], closing[k]))
    && (forall i: nat :: i < |signals| ==> (i in index <==> NeedsClosing(inst, base, signals, closing, index, i)))
  }

  lemma AroundSurrounds(id: string, ts: int, price: real)
    requires price > 0.0
    ensures var t := QuoteAround(id, ts, price);
      IsQuote(t, id) && t.ts == ts && Surrounds(t, price)
  {
  }

  /** The price lies strictly between bid and ask exactly when it is above the least bid. */
  lemma SurroundsStrictly(t: Tick, price: real)
    requires Surrounds(t, price)
    ensures t.bid < price < t.ask <==> price > 0.000001
  {
  }

  lemma NotReachedMeans(ticks: seq<Tick>, id: string, ts: int)
    ensures LastQuote(ticks, id) < ts <==> ts >= 0 && !Reached(ticks, id, ts)
  {
    LastQuoteReached(ticks, id);
    if ts >= 0 && LastQuote(ticks, id) >= ts {
      var j :| 0 <= j < |ticks| && IsQuote(ticks[j], id) && LastQuote(ticks, id) <= ticks[j].ts;
      assert Reached(ticks, id, ts);
    }
  }

  /** Each signal in turn: it adds its quote, or nothing. */
  lemma {:induction false} ClosingBy(inst: Instruments, sofar: seq<Tick>, signals: seq<ReplaySignal>)
    returns (closing: seq<Tick>, index: seq<nat>)
    ensures Closing(inst, sofar, signals) == sofar + closing
    ensures ClosedBy(inst, sofar, signals, closing, index)
    decreases |signals|
  {
    closing, index := [], [];
    if |signals| > 0 {
      var s := signals[0];
      if s.key in inst {
        NotReachedMeans(sofar, inst[s.key], s.tsNs);
      }
      var first := if s.key in inst && LastQuote(sofar, inst[s.key]) < s.tsNs then [ClosingQuote(inst[s.key], s)] else [];
      assert sofar + [] == sofar;
      var rest, later := ClosingBy(inst, sofar + first, signals[1..]);
      hide LastQuote, Reached;
      if s.key in inst {
        AroundSurrounds(inst[s.key], s.tsNs, if Positive(s.fairValue) then s.fairValue.value else 1.0);
      }
      closing := first + rest;
      assert sofar + first + rest == sofar + (first + rest);
      index := FirstClosed(inst, sofar, signals, first, rest, later);
    }
  }

  lemma FirstClosed(inst: Instruments, sofar: seq<Tick>, signals: seq<ReplaySignal>, first: seq<Tick>, rest: seq<Tick>,
                    later: seq<nat>) returns (index: seq<nat>)
    requires |signals| > 0 && ClosedBy(inst, sofar + first, signals[1..], rest, later)
    requires var s := signals[0];
      if s.key in inst && s.tsNs >= 0 && !Reached(sofar, inst[s.key], s.tsNs)
      then |first| == 1 && ClosesFor(inst, s, first[0]) else first == []
    ensures ClosedBy(inst, sofar, signals, first + rest, index)
  {
    var shifted: seq<nat> := seq(|later|, k requires 0 <= k < |later| => later[k] + 1);
    index := (if first == [] then [] else [0]) + shifted;
    var all := first + rest;
    forall i: nat | i < |signals|
      ensures i in index <==> NeedsClosing(inst, sofar, signals, all, index, i)
    {
      FirstOrLater(inst, sofar, signals, first, rest, later, shifted, i);
    }
    hide NeedsClosing, Reached;
  }

  lemma FirstOrLater(inst: Instruments, sofar: seq<Tick>, signals: seq<ReplaySignal>, first: seq<Tick>, rest: seq<Tick>,
                     later: seq<nat>, shifted: seq<nat>, i: nat)
    requires |signals| > 0 && i < |signals| && |first| <= 1 && |later| == |rest|
    requires |shifted| == |later| && forall k :: 0 <= k < |later| ==> shifted[k] == later[k] + 1
    requires var s := signals[0]; first != [] <==> s.key in inst && s.tsNs >= 0 && !Reached(sofar, inst[s.key], s.tsNs)
    requires i > 0 ==> (i - 1 in later <==> NeedsClosing(inst, sofar + first, signals[1..], rest, later, i - 1))
    ensures var index: seq<nat> := (if first == [] then [] else [0]) + shifted;
      i in index <==> NeedsClosing(inst, sofar, signals, first + rest, index, i)
  {
    var index: seq<nat> := (if first == [] then [] else [0]) + shifted;
    hide Reached;
    if i == 0 {
      assert 0 in index <==> first != [];
    } else {
      ShiftedMember(later, shifted, i);
      assert i in index <==> i in shifted;
      assert signals[1..][i - 1] == signals[i];
      if signals[i].key in inst {
        EarlierShifted(sofar, first, rest, later, shifted, i, inst[signals[i].key], signals[i].tsNs);
      }
      hide ClosedEarlier;
    }
  }

  lemma ShiftedMember(later: seq<nat>, shifted: seq<nat>, i: nat)
    requires i > 0 && |shifted| == |later| && forall k :: 0 <= k < |later| ==> shifted[k] == later[k] + 1
    ensures i in shifted <==> i - 1 in later
  {
    if i - 1 in later {
      var k :| 0 <= k < |later| && later[k] == i - 1;
      assert shifted[k] == i;
    }
  }

  /** The first quote counts as a base quote for the signals after it. */
  lemma EarlierShifted(sofar: seq<Tick>, first: seq<Tick>, rest: seq<Tick>, later: seq<nat>, shifted: seq<nat>, i: nat,
                       id: string, ts: int)
    requires i > 0 && |first| <= 1 && |later| == |rest|
    requires |shifted| == |later| && forall k :: 0 <= k < |later| ==> shifted[k] == later[k] + 1
    ensures var index := (if first == [] then [] else [0]) + shifted;
      Reached(sofar + first, id, ts) || ClosedEarlier(rest, later, i - 1, id, ts) <==>
      Reached(sofar, id, ts) || ClosedEarlier(first + rest, index, i, id, ts)
  {
    var index: seq<nat> := (if first == [] then [] else [0]) + shifted;
    var all, n := first + rest, |first|;
    if first == [] {
      assert sofar + first == sofar;
    } else {
      assert first == [first[0]];
      OneQuoteMore(sofar, first[0], id, ts);
    }
    hide Reached;
    if ClosedEarlier(rest, later, i - 1, id, ts) {
      var k :| 0 <= k < |rest| && later[k] < i - 1 && IsQuote(rest[k], id) && ts <= rest[k].ts;
      assert all[n + k] == rest[k] && index[n + k] == shifted[k];
    }
    if n == 1 && IsQuote(first[0], id) && ts <= first[0].ts {
      assert all[0] == first[0] && index[0] == 0;
    }
    if ClosedEarlier(all, index, i, id, ts) {
      var k :| 0 <= k < |all| && index[k] < i && IsQuote(all[k], id) && ts <= all[k].ts;
      if k >= n {
        assert all[k] == rest[k - n] && index[k] == shifted[k - n];
      }
    }
  }

  /**
   The ticks are, in some order: one quote for each usable snapshot, one around each close
   of a symbol without a usable snapshot, one trade for each good trade row, and a closing
   quote for each signal that the quotes before it do not reach.
   */
  ghost predicate MadeFrom(inst: Instruments, book: seq<BookEvent>, prices: seq<PriceRow>, trades: seq<TradeRow>,
                           signals: seq<ReplaySignal>, ticks: seq<Tick>) {
    exists fromBook: seq<Tick>, fromCloses: seq<Tick>, fromTrades: seq<Tick>, closing: seq<Tick>, index: seq<nat> ::
      MadeOf(inst, book, prices, trades, signals, ticks, fromBook, fromCloses, fromTrades, closing, index)
  }

  ghost predicate MadeOf(inst: Instruments, book: seq<BookEvent>, prices: seq<PriceRow>, trades: seq<TradeRow>,
                         signals: seq<ReplaySignal>, ticks: seq<Tick>, fromBook: seq<Tick>, fromCloses: seq<Tick>,
                         fromTrades: seq<Tick>, closing: seq<Tick>, index: seq<nat>) {
    && multiset(ticks) == multiset(fromBook) + multiset(fromCloses) + multiset(fromTrades) + multiset(closing)
    && OneForEach(book, fromBook, Usable(inst), OwnQuote(inst))
    && OneForEach(prices, fromCloses, Quotable(inst, book), AroundClose(inst))
    && OneForEach(trades, fromTrades, Traded(inst), OwnTrade(inst))
    && ClosedBy(inst, fromBook + fromCloses + fromTrades, signals, closing, index)
  }

  lemma BookMatches(inst: Instruments, book: seq<BookEvent>)
    ensures OneForEach(book, FlatMap(book, FromBook(inst)), Usable(inst), OwnQuote(inst))
  {
    hide FlatMap, Upper;
    var index := FlatMapMatches(book, FromBook(inst), Usable(inst), OwnQuote(inst));
  }

  lemma TradesMatch(inst: Instruments, trades: seq<TradeRow>)
    ensures OneForEach(trades, FlatMap(trades, FromTrade(inst)), Traded(inst), OwnTrade(inst))
  {
    hide FlatMap, Upper, Lower;
    var index := FlatMapMatches(trades, FromTrade(inst), Traded(inst), OwnTrade(inst));
  }

  /** The quote of a close, when the row is wanted. */
  function WantedQuote(inst: Instruments, quoted: set<string>): PriceRow -> seq<Tick> {
    (row: PriceRow) => if PriceWanted(inst, quoted)(row) then FromPrice(inst)(row) else []
  }

  lemma UsableMeans(inst: Instruments, e: BookEvent)
    ensures FromBook(inst)(e) != [] <==> Usable(inst)(e)
  {
    hide Upper;
  }

  lemma NotInBook(inst: Instruments, book: seq<BookEvent>, symbol: string)
    ensures symbol !in BookSymbols(inst, book) <==> NoBook(inst, book, symbol)
  {
    forall e | e in book
      ensures FromBook(inst)(e) != [] <==> Usable(inst)(e)
    {
      UsableMeans(inst, e);
    }
    hide FromBook, Usable, Upper;
    if symbol in BookSymbols(inst, book) {
      var e :| e in book && FromBook(inst)(e) != [] && Upper(e.symbol) == symbol;
    }
  }

  lemma WantedMeans(inst: Instruments, book: seq<BookEvent>, row: PriceRow)
    ensures var quote := WantedQuote(inst, BookSymbols(inst, book))(row);
      if Quotable(inst, book)(row) then |quote| == 1 && AroundClose(inst)(row, quote[0]) else quote == []
  {
    NotInBook(inst, book, Upper(row.symbol));
    if Upper(row.symbol) in inst && row.tsMs.Some? && Positive(row.close) {
      AroundSurrounds(inst[Upper(row.symbol)], row.tsMs.value * NS, row.close.value);
    }
    hide FromBook, Usable, BookSymbols, NoBook, Upper, QuoteAround, Surrounds;
    var quoted := BookSymbols(inst, book);
    assert PriceWanted(inst, quoted)(row) <==> row.tsMs.Some? && Upper(row.symbol) in inst && Upper(row.symbol) !in quoted;
    assert Quotable(inst, book)(row) <==> PriceWanted(inst, quoted)(row) && Positive(row.close);
    assert WantedQuote(inst, quoted)(row) == if PriceWanted(inst, quoted)(row) then FromPrice(inst)(row) else [];
    if Quotable(inst, book)(row) {
      assert FromPrice(inst)(row) == [QuoteAround(inst[Upper(row.symbol)], row.tsMs.value * NS, row.close.value)];
    }
  }

  lemma ClosesMatch(inst: Instruments, book: seq<BookEvent>, prices: seq<PriceRow>) returns (fromCloses: seq<Tick>)
    ensures multiset(FlatMap(PriceFrame(inst, BookSymbols(inst, book), prices), FromPrice(inst))) == multiset(fromCloses)
    ensures OneForEach(prices, fromCloses, Quotable(inst, book), AroundClose(inst))
  {
    var quoted := BookSymbols(inst, book);
    var f := WantedQuote(inst, quoted);
    FlatMapSort(Filter(prices, PriceWanted(inst, quoted)), ByTimeAndSymbol(), FromPrice(inst));
    FlatMapFilter(prices, PriceWanted(inst, quoted), FromPrice(inst), f);
    hide FlatMap, Sort, Filter, BookSymbols, Usable, Quotable, AroundClose, FromPrice, PriceWanted, WantedQuote;
    forall row | row in prices
      ensures if Quotable(inst, book)(row) then |f(row)| == 1 && AroundClose(inst)(row, f(row)[0]) else f(row) == []
    {
      WantedMeans(inst, book, row);
    }
    fromCloses := FlatMap(prices, f);
    var index := FlatMapMatches(prices, f, Quotable(inst, book), AroundClose(inst));
  }

  /** What is in the base decides the closing quotes, not its order. */
  lemma ClosedByPermuted(inst: Instruments, base: seq<Tick>, other: seq<Tick>, signals: seq<ReplaySignal>, closing: seq<Tick>,
                         index: seq<nat>)
    requires multiset(base) == multiset(other) && ClosedBy(inst, base, signals, closing, index)
    ensures ClosedBy(inst, other, signals, closing, index)
  {
    forall id, ts
      ensures Reached(base, id, ts) <==> Reached(other, id, ts)
    {
      if Reached(base, id, ts) {
        ReachedPermuted(base, other, id, ts);
      }
      if Reached(other, id, ts) {
        ReachedPermuted(other, base, id, ts);
      }
    }
    hide Reached, ClosedEarlier;
  }

  lemma ReachedPermuted(a: seq<Tick>, b: seq<Tick>, id: string, ts: int)
    requires multiset(a) == multiset(b) && Reached(a, id, ts)
    ensures Reached(b, id, ts)
  {
    var j :| 0 <= j < |a| && IsQuote(a[j], id) && ts <= a[j].ts;
    assert a[j] in multiset(b);
    var k :| 0 <= k < |b| && b[k] == a[j];
  }

  lemma MadeOfParts(inst: Instruments, book: seq<BookEvent>, prices: seq<PriceRow>, trades: seq<TradeRow>,
                    signals: seq<ReplaySignal>, ticks: seq<Tick>, fromBook: seq<Tick>, framed: seq<Tick>,
                    fromCloses: seq<Tick>, fromTrades: seq<Tick>, closing: seq<Tick>, index: seq<nat>)
    requires multiset(ticks) == multiset(fromBook + framed + fromTrades + closing)
    requires multiset(framed) == multiset(fromCloses)
    requires OneForEach(book, fromBook, Usable(inst), OwnQuote(inst))
    requires OneForEach(prices, fromCloses, Quotable(inst, book), AroundClose(inst))
    requires OneForEach(trades, fromTrades, Traded(inst), OwnTrade(inst))
    requires ClosedBy(inst, fromBook + framed + fromTrades, signals, closing, index)
    ensures MadeFrom(inst, book, prices, trades, signals, ticks)
  {
    hide OneForEach, ClosedBy, Usable, Quotable, Traded, OwnQuote, OwnTrade, AroundClose;
    ClosedByPermuted(inst, fromBook + framed + fromTrades, fromBook + fromCloses + fromTrades, signals, closing, index);
    assert MadeOf(inst, book, prices, trades, signals, ticks, fromBook, fromCloses, fromTrades, closing, index);
  }

  /** Below the cap the ticks account for every row and every signal. */
  lemma TicksMadeFrom(inst: Instruments, book: seq<BookEvent>, prices: seq<PriceRow>, trades: seq<TradeRow>,
                      signals: seq<ReplaySignal>)
    ensures MadeFrom(inst, book, prices, trades, signals, Sort(AllTicks(inst, book, prices, trades, signals), ByTs()))
  {
    hide FlatMap, PriceFrame, BookSymbols, Closing, Sort, OneForEach, ClosedBy, MadeFrom;
    hide FromBook, FromPrice, FromTrade, Usable, Quotable, Traded, OwnQuote, OwnTrade, AroundClose, ByTs;
    var fromBook, fromTrades := FlatMap(book, FromBook(inst)), FlatMap(trades, FromTrade(inst));
    var framed := FlatMap(PriceFrame(inst, BookSymbols(inst, book), prices), FromPrice(inst));
    BookMatches(inst, book);
    TradesMatch(inst, trades);
    var fromCloses := ClosesMatch(inst, book, prices);
    var closing, index := ClosingBy(inst, fromBook + framed + fromTrades, signals);
    AllTicksMeans(inst, book, prices, trades, signals);
    SortPermutes(AllTicks(inst, book, prices, trades, signals), ByTs());
    hide AllTicks;
    MadeOfParts(inst, book, prices, trades, signals, Sort(AllTicks(inst, book, prices, trades, signals), ByTs()),
                fromBook, framed, fromCloses, fromTrades, closing, index);
  }

  // ----- the loops, each of which stops when the cap is reached

  ghost predicate Within(ticks: seq<Tick>, cap: int) {
    |ticks| <= cap || |ticks| == 0
  }

  lemma StopWhenFull<S>(ticks: seq<Tick>, before: seq<Tick>, rows: seq<S>, i: nat, f: S -> seq<Tick>, cap: int)
    requires i <= |rows| && ticks == before + FlatMap(rows[..i], f)
    requires Within(ticks, cap) && (|ticks| >= cap || i == |rows|)
    ensures ticks == Take(before + FlatMap(rows, f), cap)
  {
    FlatMapPrefix(rows, i, f);
    assert i == |rows| ==> rows[..i] == rows;
  }

  lemma TakeAppend<T>(s: seq<T>, t: seq<T>, cap: int)
    ensures Take(Take(s, cap) + t, cap) == Take(s + t, cap)
  {
  }

  lemma TakeClosing(inst: Instruments, base: seq<Tick>, signals: seq<ReplaySignal>, cap: int)
    ensures Take(Closing(inst, Take(base, cap), signals), cap) == Take(Closing(inst, base, signals), cap)
  {
    ClosingLength(inst, base, signals);
    ClosingLength(inst, Take(base, cap), signals);
  }

  lemma BookSymbolsSnoc(inst: Instruments, book: seq<BookEvent>, i: nat)
    requires i < |book|
    ensures BookSymbols(inst, book[..i + 1]) ==
      BookSymbols(inst, book[..i]) + (if FromBook(inst)(book[i]) != [] then {Upper(book[i].symbol)} else {})
  {
    assert book[..i + 1] == book[..i] + [book[i]];
  }

  /** The quote of one snapshot, when it is usable. */
  method BookQuote(inst: Instruments, e: BookEvent) returns (quote: seq<Tick>)
    ensures quote == FromBook(inst)(e) && |quote| <= 1
  {
    hide Upper;
    quote := [];
    if Upper(e.symbol) in inst && Positive(e.bid) && Positive(e.ask) && Positive(e.bidSize) && Positive(e.askSize) {
      if e.bid.value < e.ask.value {
        quote := [QuoteTick(inst[Upper(e.symbol)], e.tsMs * NS, e.bid.value, e.ask.value,
                            e.bidSize.value, e.askSize.value)];
      }
    }
  }

  method AppendBookQuotes(inst: Instruments, book: seq<BookEvent>, cap: int)
    returns (ticks: seq<Tick>, quoted: set<string>)
    ensures ticks == Take(FlatMap(book, FromBook(inst)), cap) && Within(ticks, cap)
    ensures |FlatMap(book, FromBook(inst))| < cap ==> quoted == BookSymbols(inst, book)
  {
    FlatMapEmpty(book, FromBook(inst));
    assert BookSymbols(inst, book[..0]) == {};
    hide FlatMap, BookSymbols, Take, FromBook, Upper;
    ticks, quoted := [], {};
    var i: nat := 0;
    while i < |book| && |ticks| < cap
      invariant i <= |book|
      invariant ticks == FlatMap(book[..i], FromBook(inst)) && Within(ticks, cap)
      invariant quoted == BookSymbols(inst, book[..i])
    {
      var e := book[i];
      FlatMapSnoc(book, i, FromBook(inst));
      BookSymbolsSnoc(inst, book, i);
      var quote := BookQuote(inst, e);
      ticks := ticks + quote;
      if quote != [] {
        quoted := quoted + {Upper(e.symbol)};
      }
      i := i + 1;
    }
    StopWhenFull(ticks, [], book, i, FromBook(inst), cap);
    FlatMapPrefix(book, i, FromBook(inst));
    assert i == |book| ==> book[..i] == book;
    assert [] + FlatMap(book, FromBook(inst)) == FlatMap(book, FromBook(inst));
  }

  method AppendPriceQuotes(inst: Instruments, frame: seq<PriceRow>, before: seq<Tick>, cap: int)
    returns (ticks: seq<Tick>)
    requires Within(before, cap)
    ensures ticks == Take(before + FlatMap(frame, FromPrice(inst)), cap) && Within(ticks, cap)
  {
    FlatMapEmpty(frame, FromPrice(inst));
    hide FlatMap, Take;
    ticks := before;
    var i: nat := 0;
    while i < |frame| && |ticks| < cap
      invariant i <= |frame|
      invariant ticks == before + FlatMap(frame[..i], FromPrice(inst)) && Within(ticks, cap)
    {
      var row := frame[i];
      FlatMapSnoc(frame, i, FromPrice(inst));
      if Upper(row.symbol) in inst && Positive(row.close) && row.tsMs.Some? {
        ticks := ticks + [QuoteAround(inst[Upper(row.symbol)], row.tsMs.value * NS, row.close.value)];
      }
      i := i + 1;
    }
    StopWhenFull(ticks, before, frame, i, FromPrice(inst), cap);
  }

  method AppendTrades(inst: Instruments, trades: seq<TradeRow>, before: seq<Tick>, cap: int)
    returns (ticks: seq<Tick>)
    requires Within(before, cap)
    ensures ticks == Take(before + FlatMap(trades, FromTrade(inst)), cap) && Within(ticks, cap)
  {
    FlatMapEmpty(trades, FromTrade(inst));
    hide FlatMap, Take;
    ticks := before;
    var i: nat := 0;
    while i < |trades| && |ticks| < cap
      invariant i <= |trades|
      invariant ticks == before + FlatMap(trades[..i], FromTrade(inst)) && Within(ticks, cap)
    {
      var row := trades[i];
      FlatMapSnoc(trades, i, FromTrade(inst));
      if Upper(row.symbol) in inst && row.tsMs.Some? && Positive(row.price) && Positive(row.size) {
        ticks := ticks + [TradeTick(inst[Upper(row.symbol)], row.tsMs.value * NS, row.price.value, row.size.value,
                                    Lower(row.side) == "sell" || Lower(row.side) == "ask")];
      }
      i := i + 1;
    }
    StopWhenFull(ticks, before, trades, i, FromTrade(inst), cap);
  }

  /** `dict.get(id, -1)`. */
  function GetLast(last: map<string, int>, id: string): int {
    if id in last then last[id] else -1
  }

  method LastQuotes(ticks: seq<Tick>) returns (last: map<string, int>)
    ensures forall id :: GetLast(last, id) == LastQuote(ticks, id)
  {
    last := map[];
    for i := 0 to |ticks|
      invariant forall id :: GetLast(last, id) == LastQuote(ticks[..i], id)
    {
      assert ticks[..i + 1][..i] == ticks[..i];
      var t := ticks[i];
      if t.QuoteTick? {
        last := last[t.id := if GetLast(last, t.id) < t.ts then t.ts else GetLast(last, t.id)];
      }
    }
    assert ticks[..|ticks|] == ticks;
  }

  lemma LastQuoteAppend(ticks: seq<Tick>, t: Tick, id: string)
    ensures LastQuote(ticks + [t], id) ==
      if IsQuote(t, id) && LastQuote(ticks, id) < t.ts then t.ts else LastQuote(ticks, id)
  {
    assert (ticks + [t])[..|ticks|] == ticks;
  }

  method AppendClosing(inst: Instruments, signals: seq<ReplaySignal>, before: seq<Tick>, cap: int)
    returns (ticks: seq<Tick>)
    requires Within(before, cap)
    ensures ticks == Take(Closing(inst, before, signals), cap)
  {
    ticks := before;
    var last := LastQuotes(before);
    var i: nat := 0;
    while i < |signals| && |ticks| < cap
      invariant i <= |signals| && Within(ticks, cap)
      invariant forall id :: GetLast(last, id) == LastQuote(ticks, id)
      invariant Closing(inst, ticks, signals[i..]) == Closing(inst, before, signals)
    {
      var s := signals[i];
      assert signals[i..][0] == s && signals[i..][1..] == signals[i + 1..];
      i := i + 1;
      if s.key !in inst {
        continue;
      }
      var id := inst[s.key];
      if GetLast(last, id) >= s.tsNs {
        continue;
      }
      var price := if Positive(s.fairValue) then s.fairValue.value else 1.0;
      var tick := QuoteAround(id, s.tsNs, price);
      forall other ensures LastQuote(ticks + [tick], other) ==
        if IsQuote(tick, other) && LastQuote(ticks, other) < tick.ts then tick.ts else LastQuote(ticks, other)
      {
        LastQuoteAppend(ticks, tick, other);
      }
      ticks := ticks + [tick];
      last := last[id := s.tsNs];
    }
    ClosingLength(inst, ticks, signals[i..]);
  }

  /** The closes of quoted symbols matter only when the book quotes leave room. */
  lemma PriceStep(inst: Instruments, book: seq<BookEvent>, prices: seq<PriceRow>, quoted: set<string>, cap: int)
    requires |FlatMap(book, FromBook(inst))| < cap ==> quoted == BookSymbols(inst, book)
    ensures Take(Take(FlatMap(book, FromBook(inst)), cap) + FlatMap(PriceFrame(inst, quoted, prices), FromPrice(inst)), cap) ==
      Take(FlatMap(book, FromBook(inst)) +
           FlatMap(PriceFrame(inst, BookSymbols(inst, book), prices), FromPrice(inst)), cap)
  {
    hide FlatMap, PriceFrame, BookSymbols;
  }

  lemma AllTicksMeans(inst: Instruments, book: seq<BookEvent>, prices: seq<PriceRow>, trades: seq<TradeRow>,
                      signals: seq<ReplaySignal>)
    ensures AllTicks(inst, book, prices, trades, signals) ==
      Closing(inst, FlatMap(book, FromBook(inst))
                    + FlatMap(PriceFrame(inst, BookSymbols(inst, book), prices), FromPrice(inst))
                    + FlatMap(trades, FromTrade(inst)), signals)
  {
  }

  lemma RoomForAll(inst: Instruments, book: seq<BookEvent>, prices: seq<PriceRow>, trades: seq<TradeRow>,
                   signals: seq<ReplaySignal>, cap: int)
    ensures |book| + |prices| + |trades| + |signals| <= cap ==>
      MadeFrom(inst, book, prices, trades, signals, Sort(Take(AllTicks(inst, book, prices, trades, signals), cap), ByTs()))
  {
    BaseLength(inst, book, prices, trades);
    ClosingLength(inst, BaseTicks(inst, book, prices, trades), signals);
    TicksMadeFrom(inst, book, prices, trades, signals);
    assert |book| + |prices| + |trades| + |signals| <= cap ==>
      Take(AllTicks(inst, book, prices, trades, signals), cap) == AllTicks(inst, book, prices, trades, signals);
    hide MadeFrom, AllTicks, Sort, Take;
  }

  /** `_nautilus_smoke_ticks`: everything up to the cap, in time order; a cap that leaves room cuts nothing off. */
  method SmokeTicks(inst: Instruments, book: seq<BookEvent>, prices: seq<PriceRow>, trades: seq<TradeRow>,
                    signals: seq<ReplaySignal>, cap: int)
    returns (ticks: seq<Tick>)
    ensures ticks == Sort(Take(AllTicks(inst, book, prices, trades, signals), cap), ByTs())
    ensures |book| + |prices| + |trades| + |signals| <= cap ==> MadeFrom(inst, book, prices, trades, signals, ticks)
  {
    RoomForAll(inst, book, prices, trades, signals, cap);
    hide MadeFrom;
    hide FlatMap, Take, Closing, PriceFrame, Within, AllTicks, BookSymbols, Sort;
    var quoted;
    ticks, quoted := AppendBookQuotes(inst, book, cap);
    ghost var fromBook := FlatMap(book, FromBook(inst));
    ghost var fromPrices := FlatMap(PriceFrame(inst, BookSymbols(inst, book), prices), FromPrice(inst));
    var frame := PriceFrame(inst, quoted, prices);
    ticks := AppendPriceQuotes(inst, frame, ticks, cap);
    PriceStep(inst, book, prices, quoted, cap);
    ticks := AppendTrades(inst, trades, ticks, cap);
    TakeAppend(fromBook + fromPrices, FlatMap(trades, FromTrade(inst)), cap);
    ticks := AppendClosing(inst, signals, ticks, cap);
    AllTicksMeans(inst, book, prices, trades, signals);
    TakeClosing(inst, BaseTicks(inst, book, prices, trades), signals, cap);
    ticks := Sort(ticks, ByTs());
  }
}
