/**
 Two ways to an equity curve: a trade-by-trade long/flat ledger, and the vectorised
 product of weights and returns.  Prices are exact reals.
 */
module Ledger {
  import opened Wrappers

  datatype Bar = Bar(ts: int, close: real)

  datatype SignalRow = SignalRow(ts: int, side: string)

  datatype Trade = Trade(ts: int, buy: bool, price: real, qty: real, pnl: real, equityAfter: real)

  // ----- the vectorised form, for any number of instruments

  function Dot(weights: seq<real>, changes: seq<real>): real
    requires |weights| == |changes|
  {
    if |weights| == 0 then 0.0
    else weights[0] * changes[0] + Dot(weights[1..], changes[1..])
  }

  function Abs(x: real): real {
    if x < 0.0 then -x else x
  }

  /** `diff().abs().sum(axis=1)` of two neighbouring rows. */
  function Turnover(before: seq<real>, after: seq<real>): real
    requires |before| == |after|
  {
    if |before| == 0 then 0.0
    else Abs(after[0] - before[0]) + Turnover(before[1..], after[1..])
  }

  /** What turning the weights over costs, as a share of equity. */
  function TradingCost(rate: real, before: seq<real>, after: seq<real>): real
    requires |before| == |after|
  {
    rate * Turnover(before, after)
  }

  /** `pct_change` of two neighbouring rows of closes. */
  function Returns(before: seq<real>, after: seq<real>): (r: seq<real>)
    requires |before| == |after| && forall i :: 0 <= i < |before| ==> before[i] != 0.0
    ensures |r| == |before|
  {
    if |before| == 0 then [] else [after[0] / before[0] - 1.0] + Returns(before[1..], after[1..])
  }

  /** A panel of closes and the target weights at the same bars. */
  ghost predicate Panel(closes: seq<seq<real>>, targets: seq<seq<real>>, width: nat) {
    && |closes| == |targets|
    && forall t :: 0 <= t < |closes| ==>
      |closes[t]| == |targets[t]| == width && forall i :: 0 <= i < width ==> closes[t][i] != 0.0
  }

  /** What becomes of equity that gains and pays these shares of itself. */
  function Changed(equity: real, gain: real, cost: real): real {
    equity * (1.0 + gain - cost)
  }

  /** `_ohlcv_rotation_reference_equity` at bar t: weights act one bar late, turnover is charged at once. */
  ghost function VectorEquity(closes: seq<seq<real>>, targets: seq<seq<real>>, width: nat, costRate: real,
                              initial: real, t: nat): real
    requires Panel(closes, targets, width) && t < |closes|
  {
    if t == 0 then initial
    else
      Changed(VectorEquity(closes, targets, width, costRate, initial, t - 1),
              Dot(targets[t - 1], Returns(closes[t - 1], closes[t])), TradingCost(costRate, targets[t - 1], targets[t]))
  }

  // ----- the same equity, as an account of shares and cash

  /** The shares that hold each weight of the equity at the closes. */
  function Shares(weights: seq<real>, equity: real, closes: seq<real>): (r: seq<real>)
    requires |weights| == |closes| && forall i :: 0 <= i < |closes| ==> closes[i] != 0.0
    ensures |r| == |closes|
  {
    if |weights| == 0 then [] else [weights[0] * equity / closes[0]] + Shares(weights[1..], equity, closes[1..])
  }

  /** What is left of the equity once the shares are bought. */
  function Uninvested(weights: seq<real>, equity: real, closes: seq<real>): real
    requires |weights| == |closes| && forall i :: 0 <= i < |closes| ==> closes[i] != 0.0
  {
    equity - Dot(Shares(weights, equity, closes), closes)
  }

  lemma ShareGain(w: real, equity: real, close: real, next: real)
    requires close != 0.0
    ensures Worth(w * equity / close, next) - Worth(w * equity / close, close) == Worth(equity, Worth(w, next / close - 1.0))
  {
    var share, ratio := w * equity / close, next / close;
    assert share * close == w * equity && ratio * close == next;
    assert share * next == share * (ratio * close) == (share * close) * ratio;
    assert equity * (w * (ratio - 1.0)) == w * equity * ratio - w * equity;
  }

  lemma WorthSum(equity: real, a: real, b: real)
    ensures Worth(equity, a + b) == Worth(equity, a) + Worth(equity, b)
  {
  }

  lemma DotFirst(a: seq<real>, b: seq<real>, x: real, y: real, as_: seq<real>, bs: seq<real>)
    requires |as_| == |bs| && a == [x] + as_ && b == [y] + bs
    ensures Dot(a, b) == Worth(x, y) + Dot(as_, bs)
  {
    assert a[1..] == as_ && b[1..] == bs;
  }

  lemma {:induction false} SharesGain(weights: seq<real>, equity: real, closes: seq<real>, next: seq<real>)
    requires |weights| == |closes| == |next| && forall i :: 0 <= i < |closes| ==> closes[i] != 0.0
    ensures var shares := Shares(weights, equity, closes);
      Dot(shares, next) - Dot(shares, closes) == Worth(equity, Dot(weights, Returns(closes, next)))
  {
    if |weights| > 0 {
      SharesGain(weights[1..], equity, closes[1..], next[1..]);
      ShareGain(weights[0], equity, closes[0], next[0]);
      var share, ret := weights[0] * equity / closes[0], next[0] / closes[0] - 1.0;
      var shares, rets := Shares(weights[1..], equity, closes[1..]), Returns(closes[1..], next[1..]);
      assert Shares(weights, equity, closes) == [share] + shares && Returns(closes, next) == [ret] + rets;
      hide Dot, Worth, Shares, Returns;
      assert weights == [weights[0]] + weights[1..] && closes == [closes[0]] + closes[1..] && next == [next[0]] + next[1..];
      DotFirst([share] + shares, next, share, next[0], shares, next[1..]);
      DotFirst([share] + shares, closes, share, closes[0], shares, closes[1..]);
      DotFirst(weights, [ret] + rets, weights[0], ret, weights[1..], rets);
      WorthSum(equity, Worth(weights[0], ret), Dot(weights[1..], rets));
    }
  }

  lemma SplitChange(equity: real, gain: real, cost: real)
    ensures Changed(equity, gain, cost) == equity + Worth(equity, gain) - Worth(equity, cost)
  {
  }

  lemma AccountStep(weights: seq<real>, equity: real, closes: seq<real>, next: seq<real>, cost: real)
    requires |weights| == |closes| == |next| && forall i :: 0 <= i < |closes| ==> closes[i] != 0.0
    ensures Changed(equity, Dot(weights, Returns(closes, next)), cost) ==
      Uninvested(weights, equity, closes) + Dot(Shares(weights, equity, closes), next) - Worth(equity, cost)
  {
    SharesGain(weights, equity, closes, next);
    SplitChange(equity, Dot(weights, Returns(closes, next)), cost);
    hide Changed, Shares, Dot, Returns, Worth;
  }

  /**
   The vectorised product is an account: bought into the weights of the bar before at its
   closes, held to this bar's closes, less the cost of what the new weights turn over.
   */
  lemma EquityIsAccount(closes: seq<seq<real>>, targets: seq<seq<real>>, width: nat, costRate: real, initial: real, t: nat)
    requires Panel(closes, targets, width) && 0 < t < |closes|
    ensures var before := VectorEquity(closes, targets, width, costRate, initial, t - 1);
      VectorEquity(closes, targets, width, costRate, initial, t) ==
        Uninvested(targets[t - 1], before, closes[t - 1]) + Dot(Shares(targets[t - 1], before, closes[t - 1]), closes[t])
        - Worth(before, TradingCost(costRate, targets[t - 1], targets[t]))
  {
    hide Shares, Dot, Returns, TradingCost, Uninvested, Changed, Worth;
    var before := VectorEquity(closes, targets, width, costRate, initial, t - 1);
    AccountStep(targets[t - 1], before, closes[t - 1], closes[t], TradingCost(costRate, targets[t - 1], targets[t]));
  }

  // ----- what the signals ask for

  /** `signal_by_ts.get`: the last row of that time. */
  function SideAt(signals: seq<SignalRow>, ts: int): Option<string> {
    if |signals| == 0 then None
    else if signals[|signals| - 1].ts == ts then Some(signals[|signals| - 1].side)
    else SideAt(signals[..|signals| - 1], ts)
  }

  /** Whether the signals ask for a position after bar t. */
  function Wanted(bars: seq<Bar>, signals: seq<SignalRow>, t: nat): bool
    requires t < |bars|
  {
    var side := SideAt(signals, bars[t].ts);
    if side == Some("buy") then true
    else if side == Some("sell") then false
    else t > 0 && Wanted(bars, signals, t - 1)
  }

  function WantedWeight(bars: seq<Bar>, signals: seq<SignalRow>, t: nat): real
    requires t < |bars|
  {
    if Wanted(bars, signals, t) then 1.0 else 0.0
  }

  function ClosePanel(bars: seq<Bar>): (r: seq<seq<real>>)
    ensures |r| == |bars| && forall t :: 0 <= t < |r| ==> r[t] == [bars[t].close]
  {
    if |bars| == 0 then [] else ClosePanel(bars[..|bars| - 1]) + [[bars[|bars| - 1].close]]
  }

  function WantedPanel(bars: seq<Bar>, signals: seq<SignalRow>, n: nat): (r: seq<seq<real>>)
    requires n <= |bars|
    ensures |r| == n && forall t :: 0 <= t < n ==> r[t] == [WantedWeight(bars, signals, t)]
  {
    if n == 0 then [] else WantedPanel(bars, signals, n - 1) + [[WantedWeight(bars, signals, n - 1)]]
  }

  ghost predicate PositiveCloses(bars: seq<Bar>) {
    forall t :: 0 <= t < |bars| ==> bars[t].close > 0.0
  }

  /** The single-instrument, zero-cost vectorised equity of the wanted weights. */
  ghost function Marked(bars: seq<Bar>, signals: seq<SignalRow>, initial: real, t: nat): real
    requires PositiveCloses(bars) && t < |bars|
  {
    VectorEquity(ClosePanel(bars), WantedPanel(bars, signals, |bars|), 1, 0.0, initial, t)
  }

  lemma DotOne(w: real, r: real)
    ensures Dot([w], [r]) == w * r
  {
    assert Dot([w][1..], [r][1..]) == 0.0;
  }

  /** From bar to bar the marked equity moves with the close while a position is wanted, and not otherwise. */
  lemma MarkedMoves(bars: seq<Bar>, signals: seq<SignalRow>, initial: real, t: nat)
    requires PositiveCloses(bars) && 0 < t < |bars|
    ensures Marked(bars, signals, initial, t) ==
      if Wanted(bars, signals, t - 1)
      then Marked(bars, signals, initial, t - 1) * (bars[t].close / bars[t - 1].close)
      else Marked(bars, signals, initial, t - 1)
  {
    var closes, targets := ClosePanel(bars), WantedPanel(bars, signals, |bars|);
    var ret := bars[t].close / bars[t - 1].close - 1.0;
    assert Returns(closes[t - 1], closes[t]) == [ret];
    DotOne(WantedWeight(bars, signals, t - 1), ret);
    assert 0.0 * Turnover(targets[t - 1], targets[t]) == 0.0;
    hide VectorEquity, Dot, Returns;
    var before := Marked(bars, signals, initial, t - 1);
    assert before * (1.0 + 1.0 * ret - 0.0) == before * (bars[t].close / bars[t - 1].close);
    assert before * (1.0 + 0.0 * ret - 0.0) == before;
  }

  // ----- the ledger

  function Worth(qty: real, close: real): real {
    qty * close
  }

  function Pnl(qty: real, entry: real, close: real): real {
    qty * (close - entry)
  }

  lemma WorthMoves(qty: real, before: real, after: real)
    requires before > 0.0
    ensures Worth(qty, before) * (after / before) == Worth(qty, after)
  {
  }

  lemma PnlMarks(qty: real, entry: real, close: real)
    ensures Worth(qty, entry) + Pnl(qty, entry, close) == Worth(qty, close)
  {
  }

  lemma WorthPositive(qty: real, close: real)
    requires qty > 0.0 && close > 0.0
    ensures Worth(qty, close) > 0.0
  {
  }

  lemma BoughtWorth(equity: real, close: real)
    requires close > 0.0 && equity > 0.0
    ensures Worth(equity / close, close) == equity && equity / close > 0.0
  {
  }

  /** Equity after the trades so far. */
  function Cash(trades: seq<Trade>, initial: real): real {
    if |trades| == 0 then initial else trades[|trades| - 1].equityAfter
  }

  /** The k-th trade follows from the ones before it: buys and sells alternate, a sell closes the buy before it. */
  ghost predicate BookedAt(trades: seq<Trade>, initial: real, k: nat)
    requires k < |trades|
  {
    var t := trades[k];
    && t.buy == (k % 2 == 0) && t.qty > 0.0
    && t.equityAfter == Cash(trades[..k], initial) + t.pnl
    && (t.buy ==> t.pnl == 0.0 && Worth(t.qty, t.price) == t.equityAfter)
    && (!t.buy ==> t.qty == trades[k - 1].qty && t.pnl == Pnl(t.qty, trades[k - 1].price, t.price))
  }

  ghost predicate Booked(trades: seq<Trade>, initial: real) {
    forall k :: 0 <= k < |trades| ==> BookedAt(trades, initial, k)
  }

  lemma BookedNext(trades: seq<Trade>, t: Trade, initial: real)
    requires Booked(trades, initial) && BookedAt(trades + [t], initial, |trades|)
    ensures Booked(trades + [t], initial)
    ensures Cash(trades + [t], initial) == t.equityAfter
  {
    forall k | 0 <= k < |trades|
      ensures BookedAt(trades + [t], initial, k)
    {
      assert BookedAt(trades, initial, k);
      assert (trades + [t])[..k] == trades[..k];
    }
  }

  function Realized(trades: seq<Trade>): real {
    if |trades| == 0 then 0.0 else Realized(trades[..|trades| - 1]) + trades[|trades| - 1].pnl
  }

  /** Profits add up to the change in equity. */
  lemma {:induction false} ProfitsAddUp(trades: seq<Trade>, initial: real)
    requires Booked(trades, initial)
    ensures Cash(trades, initial) == initial + Realized(trades)
  {
    if |trades| > 0 {
      var n := |trades| - 1;
      assert BookedAt(trades, initial, n);
      forall k | 0 <= k < n
        ensures BookedAt(trades[..n], initial, k)
      {
        assert BookedAt(trades, initial, k);
        assert trades[..n][..k] == trades[..k];
      }
      ProfitsAddUp(trades[..n], initial);
    }
  }

  /** What the loop variables mean: all equity in cash, or all of it in the position. */
  ghost predicate Holding(trades: seq<Trade>, equity: real, qty: real, entry: real, initial: real) {
    && equity == Cash(trades, initial) && Booked(trades, initial) && qty >= 0.0
    && (qty == 0.0 <==> |trades| % 2 == 0)
    && (qty > 0.0 ==> qty == trades[|trades| - 1].qty && entry == trades[|trades| - 1].price && Worth(qty, entry) == equity)
  }

  lemma BuyHolds(trades: seq<Trade>, equity: real, entry: real, initial: real, ts: int, close: real)
    requires Holding(trades, equity, 0.0, entry, initial) && close > 0.0 && equity > 0.0
    ensures Holding(trades + [Trade(ts, true, close, equity / close, 0.0, equity)], equity, equity / close, close, initial)
    ensures Worth(equity / close, close) == equity && equity / close > 0.0
  {
    hide Worth, Pnl, Booked;
    BoughtWorth(equity, close);
    var t := Trade(ts, true, close, equity / close, 0.0, equity);
    assert (trades + [t])[..|trades|] == trades;
    BookedNext(trades, t, initial);
  }

  lemma SellHolds(trades: seq<Trade>, equity: real, qty: real, entry: real, initial: real, ts: int, close: real)
    requires Holding(trades, equity, qty, entry, initial) && qty > 0.0
    ensures var pnl := Pnl(qty, entry, close);
      Holding(trades + [Trade(ts, false, close, qty, pnl, equity + pnl)], equity + pnl, 0.0, entry, initial)
    ensures equity + Pnl(qty, entry, close) == Worth(qty, close)
  {
    hide Worth, Pnl, Booked;
    PnlMarks(qty, entry, close);
    var t := Trade(ts, false, close, qty, Pnl(qty, entry, close), equity + Pnl(qty, entry, close));
    assert (trades + [t])[..|trades|] == trades;
    BookedNext(trades, t, initial);
  }

  /** The equity that the ledger shows at a close. */
  function Shown(equity: real, qty: real, close: real): real {
    if qty > 0.0 then Worth(qty, close) else equity
  }

  /** The ledger holds what is wanted after bar t, and shows the vectorised equity there. */
  ghost predicate Agrees(bars: seq<Bar>, signals: seq<SignalRow>, initial: real, t: nat, equity: real, qty: real)
    requires PositiveCloses(bars) && t < |bars|
  {
    && (qty > 0.0) == Wanted(bars, signals, t)
    && Shown(equity, qty, bars[t].close) == Marked(bars, signals, initial, t)
    && Shown(equity, qty, bars[t].close) > 0.0
  }

  /** As Agrees, but with the trade of bar t still to come. */
  ghost predicate Before(bars: seq<Bar>, signals: seq<SignalRow>, initial: real, t: nat, equity: real, qty: real)
    requires PositiveCloses(bars) && t < |bars|
  {
    && (qty > 0.0) == (t > 0 && Wanted(bars, signals, t - 1))
    && Shown(equity, qty, bars[t].close) == Marked(bars, signals, initial, t)
    && Shown(equity, qty, bars[t].close) > 0.0
  }

  /** Before bar t trades, its close already shows the vectorised equity. */
  lemma ShownBeforeTrade(bars: seq<Bar>, signals: seq<SignalRow>, initial: real, t: nat, equity: real, qty: real)
    requires PositiveCloses(bars) && t < |bars| && initial > 0.0
    requires if t == 0 then qty == 0.0 && equity == initial else Agrees(bars, signals, initial, t - 1, equity, qty)
    ensures Before(bars, signals, initial, t, equity, qty)
  {
    hide Worth;
    if t > 0 {
      hide Marked;
      MarkedMoves(bars, signals, initial, t);
      WorthMoves(qty, bars[t - 1].close, bars[t].close);
      if qty > 0.0 {
        WorthPositive(qty, bars[t].close);
      }
    }
  }

  lemma HoldingBooked(trades: seq<Trade>, equity: real, qty: real, entry: real, initial: real)
    requires Holding(trades, equity, qty, entry, initial)
    ensures Booked(trades, initial) && qty >= 0.0
    ensures qty > 0.0 ==> Worth(qty, entry) == equity
  {
  }

  lemma FlatHolds(initial: real)
    ensures Holding([], initial, 0.0, 0.0, initial)
  {
  }

  lemma FlatAtEnd(bars: seq<Bar>, signals: seq<SignalRow>, initial: real, trades: seq<Trade>, equity: real,
                  qty: real, entry: real)
    requires PositiveCloses(bars) && |bars| > 0 && Holding(trades, equity, qty, entry, initial)
    requires Agrees(bars, signals, initial, |bars| - 1, equity, qty)
    ensures Booked(trades, initial)
    ensures !Wanted(bars, signals, |bars| - 1) ==> Marked(bars, signals, initial, |bars| - 1) == initial + Realized(trades)
  {
    hide Worth, Marked, Wanted;
    ProfitsAddUp(trades, initial);
  }

  lemma WantedNow(bars: seq<Bar>, signals: seq<SignalRow>, t: nat)
    requires t < |bars|
    ensures var side := SideAt(signals, bars[t].ts);
      Wanted(bars, signals, t) ==
        if side == Some("buy") then true
        else if side == Some("sell") then false
        else t > 0 && Wanted(bars, signals, t - 1)
  {
  }

  // ----- the ledger as a function of any bars

  /** The loop variables: trades so far, realised equity, position and its entry price. */
  datatype Account = Account(trades: seq<Trade>, equity: real, qty: real, entry: real)

  function Traded(a: Account, ts: int, side: Option<string>, close: real): Account {
    if side == Some("buy") && a.qty == 0.0 && close > 0.0 then
      Account(a.trades + [Trade(ts, true, close, a.equity / close, 0.0, a.equity)], a.equity, a.equity / close, close)
    else if side == Some("sell") && a.qty > 0.0 then
      var pnl := Pnl(a.qty, a.entry, close);
      Account(a.trades + [Trade(ts, false, close, a.qty, pnl, a.equity + pnl)], a.equity + pnl, 0.0, a.entry)
    else a
  }

  function AccountAfter(bars: seq<Bar>, signals: seq<SignalRow>, initial: real, n: nat): Account
    requires n <= |bars|
  {
    if n == 0 then Account([], initial, 0.0, 0.0)
    else
      Traded(AccountAfter(bars, signals, initial, n - 1), bars[n - 1].ts, SideAt(signals, bars[n - 1].ts), bars[n - 1].close)
  }

  /** The equity row of bar t. */
  function LedgerEquity(bars: seq<Bar>, signals: seq<SignalRow>, initial: real, t: nat): real
    requires t < |bars|
  {
    var a := AccountAfter(bars, signals, initial, t + 1);
    if a.qty > 0.0 then a.equity + Pnl(a.qty, a.entry, bars[t].close) else a.equity
  }

  /** `_simulate_long_flat_trades`, for any closes and any initial equity. */
  method Simulate(bars: seq<Bar>, signals: seq<SignalRow>, initial: real)
    returns (trades: seq<Trade>, equityRows: seq<real>)
    ensures trades == AccountAfter(bars, signals, initial, |bars|).trades
    ensures |equityRows| == |bars|
    ensures forall t :: 0 <= t < |bars| ==> equityRows[t] == LedgerEquity(bars, signals, initial, t)
    ensures PositiveCloses(bars) ==>
      ((forall t :: 0 <= t < |bars| ==> equityRows[t] == Marked(bars, signals, initial, t)) <==>
         initial >= 0.0 || HeldStill(bars, signals))
  {
    hide Pnl, Marked, Wanted, HeldStill;
    var equity, qty, entry := initial, 0.0, 0.0;
    trades, equityRows := [], [];
    for i := 0 to |bars|
      invariant Account(trades, equity, qty, entry) == AccountAfter(bars, signals, initial, i)
      invariant |equityRows| == i
      invariant forall t :: 0 <= t < i ==> equityRows[t] == LedgerEquity(bars, signals, initial, t)
    {
      var bar := bars[i];
      var side := SideAt(signals, bar.ts);
      if side == Some("buy") && qty == 0.0 && bar.close > 0.0 {
        qty := equity / bar.close;
        entry := bar.close;
        trades := trades + [Trade(bar.ts, true, bar.close, qty, 0.0, equity)];
      } else if side == Some("sell") && qty > 0.0 {
        var pnl := Pnl(qty, entry, bar.close);
        equity := equity + pnl;
        trades := trades + [Trade(bar.ts, false, bar.close, qty, pnl, equity)];
        qty := 0.0;
      }
      var marked := equity;
      if qty > 0.0 {
        marked := equity + Pnl(qty, entry, bar.close);
      }
      equityRows := equityRows + [marked];
    }
    if PositiveCloses(bars) {
      LedgerMarksExactly(bars, signals, initial);
    }
  }

  // ----- positive equity: the ledger marks the vectorised equity

  /** What holds after bar t of a ledger with positive initial equity. */
  lemma {:induction false} LedgerAgrees(bars: seq<Bar>, signals: seq<SignalRow>, initial: real, t: nat)
    requires PositiveCloses(bars) && initial > 0.0 && t < |bars|
    ensures var a := AccountAfter(bars, signals, initial, t + 1);
      && Holding(a.trades, a.equity, a.qty, a.entry, initial)
      && Agrees(bars, signals, initial, t, a.equity, a.qty)
      && LedgerEquity(bars, signals, initial, t) == Marked(bars, signals, initial, t)
  {
    var a := AccountAfter(bars, signals, initial, t);
    if t > 0 {
      LedgerAgrees(bars, signals, initial, t - 1);
    } else {
      FlatHolds(initial);
    }
    hide Marked, Wanted, Holding, Agrees, Before, Worth, Pnl, Booked;
    ShownBeforeTrade(bars, signals, initial, t, a.equity, a.qty);
    BarAgrees(bars, signals, t, initial, a);
  }

  /** The trade of one bar. */
  lemma BarAgrees(bars: seq<Bar>, signals: seq<SignalRow>, t: nat, initial: real, a: Account)
    requires PositiveCloses(bars) && t < |bars|
    requires Holding(a.trades, a.equity, a.qty, a.entry, initial)
    requires Before(bars, signals, initial, t, a.equity, a.qty)
    ensures var b := Traded(a, bars[t].ts, SideAt(signals, bars[t].ts), bars[t].close);
      && Holding(b.trades, b.equity, b.qty, b.entry, initial)
      && Agrees(bars, signals, initial, t, b.equity, b.qty)
      && (if b.qty > 0.0 then b.equity + Pnl(b.qty, b.entry, bars[t].close) else b.equity) ==
           Marked(bars, signals, initial, t)
  {
    var close := bars[t].close;
    HoldingBooked(a.trades, a.equity, a.qty, a.entry, initial);
    if a.qty == 0.0 && a.equity > 0.0 {
      BuyHolds(a.trades, a.equity, a.entry, initial, bars[t].ts, close);
    }
    if a.qty > 0.0 {
      SellHolds(a.trades, a.equity, a.qty, a.entry, initial, bars[t].ts, close);
    }
    WantedNow(bars, signals, t);
    var b := Traded(a, bars[t].ts, SideAt(signals, bars[t].ts), close);
    PnlMarks(b.qty, b.entry, close);
    hide Marked, Booked, Worth, Pnl, Holding, Wanted;
    HoldingBooked(b.trades, b.equity, b.qty, b.entry, initial);
  }

  /** Positive initial equity and closes: trades alternate, sells close the buys before them, and profits add up. */
  lemma LedgerBooks(bars: seq<Bar>, signals: seq<SignalRow>, initial: real)
    requires PositiveCloses(bars) && initial > 0.0
    ensures Booked(AccountAfter(bars, signals, initial, |bars|).trades, initial)
    ensures |bars| > 0 && !Wanted(bars, signals, |bars| - 1) ==>
      LedgerEquity(bars, signals, initial, |bars| - 1) ==
        initial + Realized(AccountAfter(bars, signals, initial, |bars|).trades)
  {
    var a := AccountAfter(bars, signals, initial, |bars|);
    if |bars| > 0 {
      LedgerAgrees(bars, signals, initial, |bars| - 1);
      FlatAtEnd(bars, signals, initial, a.trades, a.equity, a.qty, a.entry);
    } else {
      FlatHolds(initial);
    }
    hide Marked, Wanted, Realized, Agrees;
  }

  // ----- which bars trade, from the signals alone

  /** The last signal of that time asks for the side. */
  ghost predicate Asks(signals: seq<SignalRow>, ts: int, side: string) {
    exists j :: 0 <= j < |signals| && signals[j] == SignalRow(ts, side) && forall k :: j < k < |signals| ==> signals[k].ts != ts
  }

  /** Bar s asked to buy, and no bar since asked to sell. */
  ghost predicate BoughtSince(bars: seq<Bar>, signals: seq<SignalRow>, s: nat, t: nat)
    requires s <= t < |bars|
  {
    Asks(signals, bars[s].ts, "buy") && forall r :: s < r <= t ==> !Asks(signals, bars[r].ts, "sell")
  }

  lemma AsksEarlier(signals: seq<SignalRow>, ts: int, side: string)
    requires |signals| > 0 && signals[|signals| - 1].ts != ts
    ensures Asks(signals, ts, side) <==> Asks(signals[..|signals| - 1], ts, side)
  {
    var past := signals[..|signals| - 1];
    assert forall k :: 0 <= k < |past| ==> past[k] == signals[k];
    if Asks(past, ts, side) {
      var j :| 0 <= j < |past| && past[j] == SignalRow(ts, side) && forall k :: j < k < |past| ==> past[k].ts != ts;
      assert signals[j] == SignalRow(ts, side);
    }
    if Asks(signals, ts, side) {
      var j :| 0 <= j < |signals| && signals[j] == SignalRow(ts, side) && forall k :: j < k < |signals| ==> signals[k].ts != ts;
      assert past[j] == SignalRow(ts, side);
    }
  }

  lemma AsksLast(signals: seq<SignalRow>, ts: int, side: string)
    requires |signals| > 0 && signals[|signals| - 1].ts == ts
    ensures Asks(signals, ts, side) <==> signals[|signals| - 1].side == side
  {
    if signals[|signals| - 1].side == side {
      assert signals[|signals| - 1] == SignalRow(ts, side);
    }
  }

  lemma {:induction false} SideIsAsked(signals: seq<SignalRow>, ts: int, side: string)
    ensures SideAt(signals, ts) == Some(side) <==> Asks(signals, ts, side)
  {
    if |signals| > 0 {
      if signals[|signals| - 1].ts == ts {
        AsksLast(signals, ts, side);
      } else {
        AsksEarlier(signals, ts, side);
        SideIsAsked(signals[..|signals| - 1], ts, side);
      }
      hide Asks;
    }
  }

  ghost predicate Bought(bars: seq<Bar>, signals: seq<SignalRow>, t: nat)
    requires t < |bars|
  {
    exists s: nat :: s <= t && BoughtSince(bars, signals, s, t)
  }

  lemma BoughtNow(bars: seq<Bar>, signals: seq<SignalRow>, t: nat)
    requires t < |bars|
    ensures Bought(bars, signals, t) <==>
      || Asks(signals, bars[t].ts, "buy")
      || (!Asks(signals, bars[t].ts, "sell") && t > 0 && Bought(bars, signals, t - 1))
  {
    hide Asks;
    if Asks(signals, bars[t].ts, "buy") {
      assert BoughtSince(bars, signals, t, t);
    }
    if t > 0 && Bought(bars, signals, t - 1) && !Asks(signals, bars[t].ts, "sell") {
      var s: nat :| s <= t - 1 && BoughtSince(bars, signals, s, t - 1);
      assert BoughtSince(bars, signals, s, t);
    }
    if s: nat :| s < t && BoughtSince(bars, signals, s, t) {
      assert BoughtSince(bars, signals, s, t - 1);
    }
  }

  /** A position is wanted exactly when some bar asked to buy and none since asked to sell. */
  lemma {:induction false} WantedExactly(bars: seq<Bar>, signals: seq<SignalRow>, t: nat)
    requires t < |bars|
    ensures Wanted(bars, signals, t) <==> Bought(bars, signals, t)
  {
    hide *;
    WantedNow(bars, signals, t);
    BoughtNow(bars, signals, t);
    SideIsAsked(signals, bars[t].ts, "buy");
    SideIsAsked(signals, bars[t].ts, "sell");
    assert |"buy"| != |"sell"|;
    if t > 0 {
      WantedExactly(bars, signals, t - 1);
    }
  }

  /** Bar t changes what is wanted. */
  ghost predicate TurnsAt(bars: seq<Bar>, signals: seq<SignalRow>, t: nat)
    requires t < |bars|
  {
    Wanted(bars, signals, t) != (t > 0 && Wanted(bars, signals, t - 1))
  }

  /** The trades are one at each of the first n bars that turns, at its time and close, on the side it turns to. */
  ghost predicate TradesAt(bars: seq<Bar>, signals: seq<SignalRow>, n: nat, trades: seq<Trade>, index: seq<nat>)
    requires n <= |bars|
  {
    && |index| == |trades|
    && (forall j, k :: 0 <= j < k < |index| ==> index[j] < index[k])
    && (forall t: nat :: t < n ==> (t in index <==> TurnsAt(bars, signals, t)))
    && (forall k :: 0 <= k < |index| ==>
          && index[k] < n && trades[k].ts == bars[index[k]].ts && trades[k].price == bars[index[k]].close
          && trades[k].buy == Wanted(bars, signals, index[k]))
  }

  /** A bar trades when what it asks for is not what is held, and the trade bears its time and close. */
  lemma TradedMeans(a: Account, ts: int, side: Option<string>, close: real)
    requires close > 0.0 && a.qty >= 0.0
    ensures var wants := if side == Some("buy") then true else if side == Some("sell") then false else a.qty > 0.0;
      var b := Traded(a, ts, side, close);
      if wants == (a.qty > 0.0) then b.trades == a.trades
      else
        && |b.trades| == |a.trades| + 1 && b.trades[..|a.trades|] == a.trades
        && b.trades[|a.trades|].ts == ts && b.trades[|a.trades|].price == close && b.trades[|a.trades|].buy == wants
  {
    assert |"buy"| != |"sell"|;
    hide Pnl;
  }

  lemma OneMoreTrade(bars: seq<Bar>, signals: seq<SignalRow>, n: nat, trades: seq<Trade>, more: seq<Trade>,
                     index: seq<nat>) returns (next: seq<nat>)
    requires n < |bars| && TradesAt(bars, signals, n, trades, index)
    requires !TurnsAt(bars, signals, n) ==> more == trades
    requires TurnsAt(bars, signals, n) ==>
      && |more| == |trades| + 1 && more[..|trades|] == trades
      && more[|trades|].ts == bars[n].ts && more[|trades|].price == bars[n].close
      && more[|trades|].buy == Wanted(bars, signals, n)
    ensures TradesAt(bars, signals, n + 1, more, next)
  {
    hide Wanted, TurnsAt;
    next := index;
    if TurnsAt(bars, signals, n) {
      next := index + [n];
      forall k | 0 <= k < |next|
        ensures next[k] < n + 1 && more[k].ts == bars[next[k]].ts && more[k].price == bars[next[k]].close
        ensures more[k].buy == Wanted(bars, signals, next[k])
      {
        assert k < |trades| ==> more[k] == more[..|trades|][k] == trades[k];
      }
      assert n !in index;
    }
    forall t: nat | t < n + 1
      ensures t in next <==> TurnsAt(bars, signals, t)
    {
      if t < n {
        assert t in next <==> t in index;
      }
    }
  }

  lemma OneMoreBar(bars: seq<Bar>, signals: seq<SignalRow>, n: nat, a: Account, index: seq<nat>) returns (more: seq<nat>)
    requires n < |bars| && bars[n].close > 0.0 && TradesAt(bars, signals, n, a.trades, index) && a.qty >= 0.0
    requires (a.qty > 0.0) == (n > 0 && Wanted(bars, signals, n - 1))
    ensures TradesAt(bars, signals, n + 1,
                     Traded(a, bars[n].ts, SideAt(signals, bars[n].ts), bars[n].close).trades, more)
  {
    WantedNow(bars, signals, n);
    TradedMeans(a, bars[n].ts, SideAt(signals, bars[n].ts), bars[n].close);
    hide Wanted, SideAt, Traded, TradesAt;
    more := OneMoreTrade(bars, signals, n, a.trades,
                         Traded(a, bars[n].ts, SideAt(signals, bars[n].ts), bars[n].close).trades, index);
  }

  /** With positive closes and equity, the ledger trades exactly where the signals turn. */
  lemma {:induction false} TradesAtTurns(bars: seq<Bar>, signals: seq<SignalRow>, initial: real, n: nat)
    returns (index: seq<nat>)
    requires PositiveCloses(bars) && initial > 0.0 && n <= |bars|
    ensures TradesAt(bars, signals, n, AccountAfter(bars, signals, initial, n).trades, index)
  {
    index := [];
    if n > 0 {
      index := TradesAtTurns(bars, signals, initial, n - 1);
      var a := AccountAfter(bars, signals, initial, n - 1);
      if n > 1 {
        LedgerAgrees(bars, signals, initial, n - 2);
        HoldingBooked(a.trades, a.equity, a.qty, a.entry, initial);
      }
      hide TradesAt, Traded, Wanted, Holding, Marked, Booked, Worth;
      index := OneMoreBar(bars, signals, n - 1, a, index);
    }
  }

  // ----- no equity, and negative equity

  /** While a position is wanted the close does not move. */
  ghost predicate HeldStill(bars: seq<Bar>, signals: seq<SignalRow>) {
    forall t :: 0 < t < |bars| && Wanted(bars, signals, t - 1) ==> bars[t].close == bars[t - 1].close
  }

  /** A ledger without positive equity never sells and never marks: it stays where it began. */
  lemma {:induction false} NoEquityStays(bars: seq<Bar>, signals: seq<SignalRow>, initial: real, n: nat)
    requires PositiveCloses(bars) && initial <= 0.0 && n <= |bars|
    ensures var a := AccountAfter(bars, signals, initial, n); a.equity == initial && a.qty <= 0.0
    ensures n > 0 ==> LedgerEquity(bars, signals, initial, n - 1) == initial
  {
    if n > 0 {
      NoEquityStays(bars, signals, initial, n - 1);
      assert initial / bars[n - 1].close <= 0.0;
    }
  }

  lemma Ratio(x: real, before: real, after: real)
    requires before > 0.0
    ensures before == after || x == 0.0 ==> x * (after / before) == x
    ensures x != 0.0 && before != after ==> x * (after / before) != x
  {
    if x != 0.0 && x * (after / before) == x {
      assert x * (after / before) / x == 1.0;
      assert after / before == 1.0;
    }
  }

  lemma {:induction false} MarkedStays(bars: seq<Bar>, signals: seq<SignalRow>, initial: real, t: nat)
    requires PositiveCloses(bars) && t < |bars| && (initial == 0.0 || HeldStill(bars, signals))
    ensures Marked(bars, signals, initial, t) == initial
  {
    if t > 0 {
      MarkedStays(bars, signals, initial, t - 1);
      MarkedMoves(bars, signals, initial, t);
      Ratio(initial, bars[t - 1].close, bars[t].close);
      hide Marked, Wanted;
    }
  }

  /** A vectorised equity that never moves means that the close never moved while a position was wanted. */
  lemma StillWhenMarkedStays(bars: seq<Bar>, signals: seq<SignalRow>, initial: real)
    requires PositiveCloses(bars) && initial != 0.0
    requires forall t :: 0 <= t < |bars| ==> Marked(bars, signals, initial, t) == initial
    ensures HeldStill(bars, signals)
  {
    hide Marked, Wanted;
    forall t | 0 < t < |bars| && Wanted(bars, signals, t - 1)
      ensures bars[t].close == bars[t - 1].close
    {
      MarkedMoves(bars, signals, initial, t);
      Ratio(initial, bars[t - 1].close, bars[t].close);
    }
  }

  /**
   For positive closes the ledger marks the vectorised equity at every bar exactly when
   initial equity is not negative, or the close never moves while a position is wanted:
   a negative position is never marked and never closed.
   */
  lemma LedgerMarksExactly(bars: seq<Bar>, signals: seq<SignalRow>, initial: real)
    requires PositiveCloses(bars)
    ensures (forall t :: 0 <= t < |bars| ==>
               LedgerEquity(bars, signals, initial, t) == Marked(bars, signals, initial, t)) <==>
      initial >= 0.0 || HeldStill(bars, signals)
  {
    hide Marked, LedgerEquity, HeldStill, Wanted;
    if initial > 0.0 {
      forall t | 0 <= t < |bars|
        ensures LedgerEquity(bars, signals, initial, t) == Marked(bars, signals, initial, t)
      {
        LedgerAgrees(bars, signals, initial, t);
      }
    } else {
      forall t | 0 <= t < |bars|
        ensures LedgerEquity(bars, signals, initial, t) == initial
        ensures initial == 0.0 || HeldStill(bars, signals) ==> Marked(bars, signals, initial, t) == initial
      {
        NoEquityStays(bars, signals, initial, t + 1);
        if initial == 0.0 || HeldStill(bars, signals) {
          MarkedStays(bars, signals, initial, t);
        }
      }
      if initial != 0.0 && forall t :: 0 <= t < |bars| ==> Marked(bars, signals, initial, t) == initial {
        StillWhenMarkedStays(bars, signals, initial);
      }
    }
  }
}
