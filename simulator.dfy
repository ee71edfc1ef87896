/** The bar-by-bar Flat/Long machine of `_backtest_strategy`: all capital
    goes into shares when the position column turns positive, all shares go
    back to capital when it turns negative, one equity value is recorded per
    bar, and a position still open after the last bar is sold at its close. */
module Simulator {
  import opened Common

  datatype Side = Buy | Sell

  /** One trade record; the date of the source is modelled by the bar index,
      and `pnl` is present only on a sell driven by the position column. */
  datatype Trade = Trade(side: Side, bar: nat, price: real, shares: real, pnl: Option<real>)

  /** The loop's variables after some bars: cash, shares held, whether a
      position is open, the price it was opened at, and the two lists. */
  datatype Sim = Sim(capital: real, shares: real, inPosition: bool, entryPrice: real,
                     trades: seq<Trade>, equity: seq<real>)

  function Start(initialCapital: real): Sim {
    Sim(initialCapital, 0.0, false, 0.0, [], [])
  }

  /** `position > 0 and not in_position and capital > 0`. */
  predicate BuyFires(s: Sim, position: Option<int>) {
    position.Some? && position.value > 0 && !s.inPosition && s.capital > 0.0
  }

  /** `position < 0 and in_position and shares > 0`, tried only when no buy fired. */
  predicate SellFires(s: Sim, position: Option<int>) {
    !BuyFires(s, position) && position.Some? && position.value < 0 && s.inPosition && s.shares > 0.0
  }

  /** The percentage profit of a round trip. */
  function Pnl(entry: real, exit: real): real
    requires entry > 0.0
  {
    (exit - entry) / entry * 100.0
  }

  /** The value of the book at a price: `capital + shares * price` while in
      position, `capital` otherwise. */
  function Worth(s: Sim, price: real): real {
    if s.inPosition then s.capital + s.shares * price else s.capital
  }

  /** One iteration of the loop over rows: at most one trade, then the
      equity of the bar. */
  function Step(s: Sim, bar: nat, price: real, position: Option<int>): Sim
    requires price > 0.0 && (s.inPosition ==> s.entryPrice > 0.0)
  {
    var t :=
      if BuyFires(s, position) then
        var bought := s.capital / price;
        s.(capital := 0.0, shares := bought, inPosition := true, entryPrice := price,
           trades := s.trades + [Trade(Buy, bar, price, bought, None)])
      else if SellFires(s, position) then
        s.(capital := s.shares * price, inPosition := false, shares := 0.0,
           trades := s.trades + [Trade(Sell, bar, price, s.shares, Some(Pnl(s.entryPrice, price)))])
      else s;
    t.(equity := t.equity + [Worth(t, price)])
  }

  /** The loop's state after the first n bars. */
  function Replay(closes: seq<real>, positions: seq<Option<int>>, initialCapital: real, n: nat): (r: Sim)
    requires AllPositive(closes) && |positions| == |closes| && n <= |closes|
    ensures |r.equity| == n
    ensures r.inPosition ==> r.entryPrice > 0.0
  {
    if n == 0 then Start(initialCapital)
    else Step(Replay(closes, positions, initialCapital, n - 1), n - 1, closes[n - 1], positions[n - 1])
  }

  /** After the loop: a position still open is sold at the last close; this
      record carries no `pnl`. */
  function Liquidate(s: Sim, closes: seq<real>): Sim
    requires s.inPosition ==> |closes| > 0
  {
    if s.inPosition then
      var last := closes[|closes| - 1];
      s.(capital := s.shares * last,
         trades := s.trades + [Trade(Sell, |closes| - 1, last, s.shares, None)])
    else s
  }

  /** The whole simulation: every bar, then the forced liquidation. */
  function Simulate(closes: seq<real>, positions: seq<Option<int>>, initialCapital: real): Sim
    requires AllPositive(closes) && |positions| == |closes|
  {
    Liquidate(Replay(closes, positions, initialCapital, |closes|), closes)
  }

  // ---------------------------------------------------------------------
  // The invariants of the machine

  /** Trade kinds alternate Buy, Sell, Buy, ... from the first record. */
  predicate Alternating(trades: seq<Trade>) {
    forall k :: 0 <= k < |trades| ==> trades[k].side == (if k % 2 == 0 then Buy else Sell)
  }

  predicate PositivePrices(trades: seq<Trade>) {
    forall k :: 0 <= k < |trades| ==> trades[k].price > 0.0
  }

  /** Every record moves a positive number of shares. */
  predicate PositiveShares(trades: seq<Trade>) {
    forall k :: 0 <= k < |trades| ==> trades[k].shares > 0.0
  }

  lemma PositiveSharesAppend(trades: seq<Trade>, t: Trade)
    requires PositiveShares(trades) && t.shares > 0.0
    ensures PositiveShares(trades + [t])
  {
    var u := trades + [t];
    assert forall k :: 0 <= k < |trades| ==> u[k] == trades[k];
    assert u[|trades|] == t;
  }

  /** The value that changes hands in a trade. */
  function Proceeds(t: Trade): real {
    t.shares * t.price
  }

  /** The cash that was available when record k was made: the initial
      capital before the first trade, the proceeds of the previous one after. */
  function CashBefore(trades: seq<Trade>, k: nat, initialCapital: real): real
    requires k <= |trades|
  {
    if k == 0 then initialCapital else Proceeds(trades[k - 1])
  }

  /** The trade list and the flag agree: Buy and Sell alternate, and a
      position is open exactly when the last record is a Buy. */
  predicate Shape(s: Sim) {
    Alternating(s.trades) && (s.inPosition <==> |s.trades| % 2 == 1)
  }

  /** Every record of the first n bars was taken at the close of its bar, in
      chronological order, one per bar at most, on a positive position for a
      Buy and a negative one for a Sell. */
  predicate Records(trades: seq<Trade>, closes: seq<real>, positions: seq<Option<int>>, n: nat)
    requires |positions| == |closes| && n <= |closes|
  {
    && (forall k :: 0 <= k < |trades| ==>
          trades[k].bar < n && trades[k].price == closes[trades[k].bar]
          && positions[trades[k].bar].Some?
          && (trades[k].side == Buy ==> positions[trades[k].bar].value > 0)
          && (trades[k].side == Sell ==> positions[trades[k].bar].value < 0))
    && (forall k :: 0 < k < |trades| ==> trades[k - 1].bar < trades[k].bar)
  }

  /** Each Sell closes the Buy before it: same shares, and its pnl is the
      round trip's percentage profit; a Buy carries no pnl. */
  predicate RoundTrips(trades: seq<Trade>)
    requires Alternating(trades) && PositivePrices(trades)
  {
    && (forall k :: 0 <= k < |trades| && trades[k].side == Buy ==> trades[k].pnl.None?)
    && (forall k :: 0 < k < |trades| && trades[k].side == Sell ==>
          trades[k].shares == trades[k - 1].shares
          && trades[k].pnl == Some(Pnl(trades[k - 1].price, trades[k].price)))
  }

  /** Every Buy spends exactly the cash available before it. */
  predicate SpendsAll(trades: seq<Trade>, initialCapital: real) {
    forall k :: 0 <= k < |trades| && trades[k].side == Buy ==>
      Proceeds(trades[k]) == CashBefore(trades, k, initialCapital)
  }

  lemma SpendsAllAppend(trades: seq<Trade>, t: Trade, initialCapital: real)
    requires SpendsAll(trades, initialCapital)
    requires t.side == Buy ==> Proceeds(t) == CashBefore(trades, |trades|, initialCapital)
    ensures SpendsAll(trades + [t], initialCapital)
  {
    var u := trades + [t];
    forall k | 0 <= k < |u| && u[k].side == Buy
      ensures Proceeds(u[k]) == CashBefore(u, k, initialCapital)
    {
      if k < |trades| {
        assert u[k] == trades[k];
        assert k > 0 ==> u[k - 1] == trades[k - 1];
      }
    }
  }

  /** The round-trip condition at one index of an extended list. */
  lemma RoundTripAt(trades: seq<Trade>, t: Trade, k: nat)
    requires Alternating(trades) && PositivePrices(trades) && RoundTrips(trades)
    requires Alternating(trades + [t]) && PositivePrices(trades + [t])
    requires t.side == Buy ==> t.pnl.None?
    requires t.side == Sell ==>
               && |trades| > 0 && t.shares == trades[|trades| - 1].shares
               && t.pnl == Some(Pnl(trades[|trades| - 1].price, t.price))
    requires k < |trades| + 1
    ensures var u := trades + [t];
            if u[k].side == Buy then u[k].pnl.None?
            else k > 0 && u[k].shares == u[k - 1].shares && u[k].pnl == Some(Pnl(u[k - 1].price, u[k].price))
  {
    var u := trades + [t];
    if k < |trades| {
      assert u[k] == trades[k];
      if trades[k].side == Sell {
        assert k % 2 == 1;
        assert u[k - 1] == trades[k - 1];
      } else {
        assert trades[k].pnl.None?;
      }
    } else {
      assert u[k] == t;
      if t.side == Sell {
        assert u[k - 1] == trades[|trades| - 1];
      }
    }
  }

  lemma RoundTripsAppend(trades: seq<Trade>, t: Trade)
    requires Alternating(trades) && PositivePrices(trades) && RoundTrips(trades)
    requires Alternating(trades + [t]) && PositivePrices(trades + [t])
    requires t.side == Buy ==> t.pnl.None?
    requires t.side == Sell ==>
               && |trades| > 0 && t.shares == trades[|trades| - 1].shares
               && t.pnl == Some(Pnl(trades[|trades| - 1].price, t.price))
    ensures RoundTrips(trades + [t])
  {
    var u := trades + [t];
    forall k | 0 <= k < |u|
      ensures if u[k].side == Buy then u[k].pnl.None?
              else u[k].shares == u[k - 1].shares && u[k].pnl == Some(Pnl(u[k - 1].price, u[k].price))
    {
      RoundTripAt(trades, t, k);
    }
  }

  /** Money is conserved: every Buy spends exactly the cash available
      before it, each Sell's proceeds become the cash, and while long the cash
      is 0 and the shares are those of the open Buy. */
  predicate Accounts(s: Sim, initialCapital: real)
    requires Shape(s)
  {
    && SpendsAll(s.trades, initialCapital)
    && if s.inPosition then
         var open := s.trades[|s.trades| - 1];
         && s.capital == 0.0 && s.shares > 0.0
         && s.entryPrice == open.price && s.shares == open.shares
       else
         s.shares == 0.0 && s.capital == CashBefore(s.trades, |s.trades|, initialCapital)
  }

  /** All of the above for the state after n bars. */
  predicate Ledger(s: Sim, closes: seq<real>, positions: seq<Option<int>>, initialCapital: real, n: nat)
    requires |positions| == |closes| && n <= |closes|
  {
    && |s.equity| == n
    && Shape(s)
    && Records(s.trades, closes, positions, n)
    && PositivePrices(s.trades)
    && PositiveShares(s.trades)
    && RoundTrips(s.trades)
    && Accounts(s, initialCapital)
  }

  lemma RecordsPositive(trades: seq<Trade>, closes: seq<real>, positions: seq<Option<int>>, n: nat)
    requires |positions| == |closes| && n <= |closes| && AllPositive(closes)
    requires Records(trades, closes, positions, n)
    ensures PositivePrices(trades)
  {
    forall k | 0 <= k < |trades| ensures trades[k].price > 0.0 {
      assert trades[k].price == closes[trades[k].bar];
    }
  }

  lemma AlternatingAppend(trades: seq<Trade>, t: Trade)
    requires Alternating(trades) && t.side == (if |trades| % 2 == 0 then Buy else Sell)
    ensures Alternating(trades + [t])
  {
    var u := trades + [t];
    forall k | 0 <= k < |u| ensures u[k].side == (if k % 2 == 0 then Buy else Sell) {
      if k < |trades| { assert u[k] == trades[k]; }
    }
  }

  lemma RecordsAppend(trades: seq<Trade>, t: Trade, closes: seq<real>, positions: seq<Option<int>>, n: nat)
    requires |positions| == |closes| && n < |closes|
    requires Records(trades, closes, positions, n)
    requires t.bar == n && t.price == closes[n] && positions[n].Some?
    requires t.side == Buy ==> positions[n].value > 0
    requires t.side == Sell ==> positions[n].value < 0
    ensures Records(trades + [t], closes, positions, n + 1)
  {
    var u := trades + [t];
    forall k | 0 <= k < |u|
      ensures u[k].bar < n + 1 && u[k].price == closes[u[k].bar] && positions[u[k].bar].Some?
      ensures u[k].side == Buy ==> positions[u[k].bar].value > 0
      ensures u[k].side == Sell ==> positions[u[k].bar].value < 0
    {
      if k < |trades| { assert u[k] == trades[k]; }
    }
    forall k | 0 < k < |u| ensures u[k - 1].bar < u[k].bar {
      if k < |trades| { assert u[k] == trades[k] && u[k - 1] == trades[k - 1]; }
    }
  }

  /** What one bar does when the buy fires. */
  lemma StepBuys(s: Sim, bar: nat, price: real, position: Option<int>)
    requires price > 0.0 && BuyFires(s, position)
    ensures var s' := Step(s, bar, price, position);
            && s'.capital == 0.0 && s'.shares == s.capital / price && s'.inPosition
            && s'.entryPrice == price && |s'.equity| == |s.equity| + 1
            && s'.trades == s.trades + [Trade(Buy, bar, price, s.capital / price, None)]
  {
  }

  lemma LedgerAfterBuy(s: Sim, s': Sim, closes: seq<real>, positions: seq<Option<int>>, initialCapital: real, n: nat)
    requires AllPositive(closes) && |positions| == |closes| && n < |closes|
    requires Ledger(s, closes, positions, initialCapital, n)
    requires BuyFires(s, positions[n])
    requires s'.capital == 0.0 && s'.shares == s.capital / closes[n] && s'.inPosition
    requires s'.entryPrice == closes[n] && |s'.equity| == n + 1
    requires s'.trades == s.trades + [Trade(Buy, n, closes[n], s.capital / closes[n], None)]
    ensures Ledger(s', closes, positions, initialCapital, n + 1)
  {
    var price := closes[n];
    var t := Trade(Buy, n, price, s.capital / price, None);
    AllIn(s.capital, price);
    AlternatingAppend(s.trades, t);
    RecordsAppend(s.trades, t, closes, positions, n);
    RecordsPositive(s'.trades, closes, positions, n + 1);
    RoundTripsAppend(s.trades, t);
    SpendsAllAppend(s.trades, t, initialCapital);
    PositiveSharesAppend(s.trades, t);
  }

  lemma StepBuyKeepsLedger(s: Sim, closes: seq<real>, positions: seq<Option<int>>, initialCapital: real, n: nat)
    requires AllPositive(closes) && |positions| == |closes| && n < |closes|
    requires Ledger(s, closes, positions, initialCapital, n)
    requires BuyFires(s, positions[n])
    ensures Ledger(Step(s, n, closes[n], positions[n]), closes, positions, initialCapital, n + 1)
  {
    StepBuys(s, n, closes[n], positions[n]);
    LedgerAfterBuy(s, Step(s, n, closes[n], positions[n]), closes, positions, initialCapital, n);
  }

  /** What one bar does when the sell fires. */
  lemma StepSells(s: Sim, bar: nat, price: real, position: Option<int>)
    requires price > 0.0 && (s.inPosition ==> s.entryPrice > 0.0) && SellFires(s, position)
    ensures var s' := Step(s, bar, price, position);
            && s'.capital == s.shares * price && s'.shares == 0.0 && !s'.inPosition
            && s'.entryPrice == s.entryPrice && |s'.equity| == |s.equity| + 1
            && s'.trades == s.trades + [Trade(Sell, bar, price, s.shares, Some(Pnl(s.entryPrice, price)))]
  {
  }

  lemma LedgerAfterSell(s: Sim, s': Sim, closes: seq<real>, positions: seq<Option<int>>, initialCapital: real, n: nat)
    requires AllPositive(closes) && |positions| == |closes| && n < |closes|
    requires s.inPosition ==> s.entryPrice > 0.0
    requires Ledger(s, closes, positions, initialCapital, n)
    requires SellFires(s, positions[n])
    requires s'.capital == s.shares * closes[n] && s'.shares == 0.0 && !s'.inPosition
    requires |s'.equity| == n + 1
    requires s'.trades == s.trades + [Trade(Sell, n, closes[n], s.shares, Some(Pnl(s.entryPrice, closes[n])))]
    ensures Ledger(s', closes, positions, initialCapital, n + 1)
  {
    var t := Trade(Sell, n, closes[n], s.shares, Some(Pnl(s.entryPrice, closes[n])));
    var u := s'.trades;
    var open := s.trades[|s.trades| - 1];
    assert s.shares == open.shares && s.entryPrice == open.price;
    assert Alternating(u) by { AlternatingAppend(s.trades, t); }
    assert Records(u, closes, positions, n + 1) by { RecordsAppend(s.trades, t, closes, positions, n); }
    assert PositivePrices(u) by { RecordsPositive(u, closes, positions, n + 1); }
    assert RoundTrips(u) by { RoundTripsAppend(s.trades, t); }
    assert SpendsAll(u, initialCapital) by { SpendsAllAppend(s.trades, t, initialCapital); }
    assert PositiveShares(u) by { PositiveSharesAppend(s.trades, t); }
    assert u[|s.trades|] == t;
  }

  lemma StepSellKeepsLedger(s: Sim, closes: seq<real>, positions: seq<Option<int>>, initialCapital: real, n: nat)
    requires AllPositive(closes) && |positions| == |closes| && n < |closes|
    requires s.inPosition ==> s.entryPrice > 0.0
    requires Ledger(s, closes, positions, initialCapital, n)
    requires SellFires(s, positions[n])
    ensures Ledger(Step(s, n, closes[n], positions[n]), closes, positions, initialCapital, n + 1)
  {
    StepSells(s, n, closes[n], positions[n]);
    LedgerAfterSell(s, Step(s, n, closes[n], positions[n]), closes, positions, initialCapital, n);
  }

  /** One bar keeps the whole ledger. */
  lemma StepKeepsLedger(s: Sim, closes: seq<real>, positions: seq<Option<int>>, initialCapital: real, n: nat)
    requires AllPositive(closes) && |positions| == |closes| && n < |closes|
    requires s.inPosition ==> s.entryPrice > 0.0
    requires Ledger(s, closes, positions, initialCapital, n)
    ensures Ledger(Step(s, n, closes[n], positions[n]), closes, positions, initialCapital, n + 1)
  {
    if BuyFires(s, positions[n]) {
      StepBuyKeepsLedger(s, closes, positions, initialCapital, n);
    } else if SellFires(s, positions[n]) {
      StepSellKeepsLedger(s, closes, positions, initialCapital, n);
    }
  }

  /** The ledger holds after every prefix of the bars. */
  lemma {:induction false} ReplayLedger(closes: seq<real>, positions: seq<Option<int>>, initialCapital: real, n: nat)
    requires AllPositive(closes) && |positions| == |closes| && n <= |closes|
    ensures Ledger(Replay(closes, positions, initialCapital, n), closes, positions, initialCapital, n)
  {
    if n > 0 {
      ReplayLedger(closes, positions, initialCapital, n - 1);
      StepKeepsLedger(Replay(closes, positions, initialCapital, n - 1), closes, positions, initialCapital, n - 1);
    }
  }

  // ---------------------------------------------------------------------
  // What the run as a whole promises

  /** A bar appends one equity value, its worth at the bar's close after the
      bar's trade, and leaves the earlier values and records alone. */
  lemma StepExtends(s: Sim, bar: nat, price: real, position: Option<int>)
    requires price > 0.0 && (s.inPosition ==> s.entryPrice > 0.0)
    ensures var s' := Step(s, bar, price, position);
            && |s'.equity| == |s.equity| + 1 && s'.equity[..|s.equity|] == s.equity
            && s'.equity[|s.equity|] == Worth(s', price)
            && |s.trades| <= |s'.trades| <= |s.trades| + 1 && s'.trades[..|s.trades|] == s.trades
            && (!BuyFires(s, position) && !SellFires(s, position) ==>
                  s'.trades == s.trades && s'.inPosition == s.inPosition
                  && s'.capital == s.capital && s'.shares == s.shares)
  {
  }

  /** The equity list of a bar grows by the book's worth at its close. */
  lemma StepEquity(s: Sim, bar: nat, price: real, position: Option<int>)
    requires price > 0.0 && (s.inPosition ==> s.entryPrice > 0.0)
    ensures var s' := Step(s, bar, price, position);
            s'.equity == s.equity + [Worth(s', price)]
  {
    StepExtends(s, bar, price, position);
    var s' := Step(s, bar, price, position);
    assert s'.equity == s'.equity[..|s.equity|] + [s'.equity[|s.equity|]];
  }

  /** A bar on which neither rule fires trades nothing. */
  lemma StepIdles(s: Sim, bar: nat, price: real, position: Option<int>)
    requires price > 0.0 && (s.inPosition ==> s.entryPrice > 0.0)
    requires !BuyFires(s, position) && !SellFires(s, position)
    ensures var s' := Step(s, bar, price, position);
            s'.capital == s.capital && s'.shares == s.shares && s'.inPosition == s.inPosition
            && s'.entryPrice == s.entryPrice && s'.trades == s.trades
  {
  }

  /** A bar only appends to the equity and trade lists. */
  lemma StepPrefix(s: Sim, bar: nat, price: real, position: Option<int>)
    requires price > 0.0 && (s.inPosition ==> s.entryPrice > 0.0)
    ensures var s' := Step(s, bar, price, position);
            && |s'.equity| == |s.equity| + 1 && s'.equity[..|s.equity|] == s.equity
            && |s.trades| <= |s'.trades| && s'.trades[..|s.trades|] == s.trades
  {
    StepExtends(s, bar, price, position);
  }

  /** The state after m bars is a prefix of the state after n >= m bars. */
  lemma {:induction false} ReplayPrefix(closes: seq<real>, positions: seq<Option<int>>, initialCapital: real, m: nat, n: nat)
    requires AllPositive(closes) && |positions| == |closes| && m <= n <= |closes|
    ensures var a, b := Replay(closes, positions, initialCapital, m), Replay(closes, positions, initialCapital, n);
            && b.equity[..m] == a.equity
            && |a.trades| <= |b.trades| && b.trades[..|a.trades|] == a.trades
  {
    if m < n {
      ReplayPrefix(closes, positions, initialCapital, m, n - 1);
      var p := Replay(closes, positions, initialCapital, n - 1);
      StepPrefix(p, n - 1, closes[n - 1], positions[n - 1]);
      var b := Replay(closes, positions, initialCapital, n);
      assert b.equity[..m] == b.equity[..n - 1][..m];
      var a := Replay(closes, positions, initialCapital, m);
      assert b.trades[..|a.trades|] == b.trades[..|p.trades|][..|a.trades|];
    }
  }

  /** The book after n bars, read off the ledger: long, all value is in the
      shares; flat, the cash is the initial capital before any trade and the
      (positive) proceeds of the last Sell after one. */
  lemma ReplayBook(closes: seq<real>, positions: seq<Option<int>>, initialCapital: real, n: nat)
    requires AllPositive(closes) && |positions| == |closes| && n <= |closes|
    ensures var r := Replay(closes, positions, initialCapital, n);
            && (r.inPosition ==> r.trades != [] && r.capital == 0.0 && r.shares > 0.0)
            && (!r.inPosition ==> r.shares == 0.0)
            && (!r.inPosition && r.trades == [] ==> r.capital == initialCapital)
            && (!r.inPosition && r.trades != [] ==> r.capital > 0.0)
  {
    var r := Replay(closes, positions, initialCapital, n);
    ReplayLedger(closes, positions, initialCapital, n);
    if !r.inPosition && r.trades != [] {
      var last := r.trades[|r.trades| - 1];
      assert last.shares > 0.0 && last.price > 0.0;
      PositiveProduct(last.shares, last.price);
      assert r.capital == Proceeds(last);
    }
  }

  /** The last equity value of a prefix is the worth of its final state. */
  lemma LastEquity(closes: seq<real>, positions: seq<Option<int>>, initialCapital: real, n: nat)
    requires AllPositive(closes) && |positions| == |closes| && 0 < n <= |closes|
    ensures var r := Replay(closes, positions, initialCapital, n);
            r.equity[n - 1] == Worth(r, closes[n - 1])
  {
    StepExtends(Replay(closes, positions, initialCapital, n - 1), n - 1, closes[n - 1], positions[n - 1]);
  }

  /** The equity of bar i is what the book is worth at that bar's close once
      its trade is done: the shares at the close while in position (the cash
      is then 0), the cash while flat. On a buy bar this is exactly the cash
      held before the buy (see BuyBarEquity). */
  lemma EquityOfBar(closes: seq<real>, positions: seq<Option<int>>, initialCapital: real, i: nat)
    requires AllPositive(closes) && |positions| == |closes| && i < |closes|
    ensures var after := Replay(closes, positions, initialCapital, i + 1);
            var e := Replay(closes, positions, initialCapital, |closes|).equity[i];
            && (after.inPosition ==> e == after.shares * closes[i])
            && (!after.inPosition ==> e == after.capital)
  {
    var after := Replay(closes, positions, initialCapital, i + 1);
    var e := Replay(closes, positions, initialCapital, |closes|).equity[i];
    EquityIsWorth(closes, positions, initialCapital, i);
    assert after.inPosition ==> e == after.shares * closes[i] by {
      ReplayBook(closes, positions, initialCapital, i + 1);
    }
  }

  /** A Buy converts the cash into shares without changing the value of the
      book: the equity of a buy bar is the cash held before the buy. */
  lemma BuyBarEquity(closes: seq<real>, positions: seq<Option<int>>, initialCapital: real, i: nat)
    requires AllPositive(closes) && |positions| == |closes| && i < |closes|
    requires BuyFires(Replay(closes, positions, initialCapital, i), positions[i])
    ensures Replay(closes, positions, initialCapital, |closes|).equity[i]
         == Replay(closes, positions, initialCapital, i).capital
  {
    var before := Replay(closes, positions, initialCapital, i);
    EquityIsWorth(closes, positions, initialCapital, i);
    StepBuys(before, i, closes[i], positions[i]);
    AllIn(before.capital, closes[i]);
  }

  lemma EquityIsWorth(closes: seq<real>, positions: seq<Option<int>>, initialCapital: real, i: nat)
    requires AllPositive(closes) && |positions| == |closes| && i < |closes|
    ensures Replay(closes, positions, initialCapital, |closes|).equity[i]
         == Worth(Replay(closes, positions, initialCapital, i + 1), closes[i])
  {
    ReplayPrefix(closes, positions, initialCapital, i + 1, |closes|);
    var after := Replay(closes, positions, initialCapital, i + 1);
    assert Replay(closes, positions, initialCapital, |closes|).equity[i] == after.equity[i];
    LastEquity(closes, positions, initialCapital, i + 1);
  }

  /** Buy and Sell alternate after any number of bars, and a position is
      open exactly when the last record is a Buy. */
  lemma ReplayShape(closes: seq<real>, positions: seq<Option<int>>, initialCapital: real, n: nat)
    requires AllPositive(closes) && |positions| == |closes| && n <= |closes|
    ensures Shape(Replay(closes, positions, initialCapital, n))
  {
    ReplayLedger(closes, positions, initialCapital, n);
  }

  /** Trades of the whole run: Buy and Sell alternate from a Buy, the list is
      of even length and ends with a Sell; a position still open after the
      last bar is closed by a Sell at the last close carrying no pnl, and the
      final cash is those shares at that close. */
  lemma ForcedLiquidation(closes: seq<real>, positions: seq<Option<int>>, initialCapital: real)
    requires AllPositive(closes) && |positions| == |closes|
    ensures var r, f := Replay(closes, positions, initialCapital, |closes|), Simulate(closes, positions, initialCapital);
            && f.equity == r.equity && |f.equity| == |closes|
            && Alternating(f.trades) && |f.trades| % 2 == 0
            && (|f.trades| > 0 ==> f.trades[|f.trades| - 1].side == Sell)
            && (r.inPosition ==>
                  && f.trades == r.trades + [Trade(Sell, |closes| - 1, closes[|closes| - 1], r.shares, None)]
                  && f.capital == r.shares * closes[|closes| - 1])
            && (!r.inPosition ==> f.trades == r.trades && f.capital == r.capital)
  {
    var r := Replay(closes, positions, initialCapital, |closes|);
    ReplayShape(closes, positions, initialCapital, |closes|);
    if r.inPosition {
      AlternatingAppend(r.trades, Trade(Sell, |closes| - 1, closes[|closes| - 1], r.shares, None));
    }
  }

  /** Capital is conserved through the run: every Buy spends exactly the cash
      held before it, and the final value is the proceeds of the last Sell, or
      the initial capital when nothing was traded. */
  lemma FinalValue(closes: seq<real>, positions: seq<Option<int>>, initialCapital: real)
    requires AllPositive(closes) && |positions| == |closes|
    ensures var f := Simulate(closes, positions, initialCapital);
            && SpendsAll(f.trades, initialCapital)
            && f.capital == CashBefore(f.trades, |f.trades|, initialCapital)
  {
    var r := Replay(closes, positions, initialCapital, |closes|);
    assert SpendsAll(r.trades, initialCapital)
        && (!r.inPosition ==> r.capital == CashBefore(r.trades, |r.trades|, initialCapital)) by {
      ReplayLedger(closes, positions, initialCapital, |closes|);
    }
    var f := Simulate(closes, positions, initialCapital);
    if r.inPosition {
      var t := Trade(Sell, |closes| - 1, closes[|closes| - 1], r.shares, None);
      assert f.trades == r.trades + [t] && f.capital == r.shares * closes[|closes| - 1];
      SpendsAllAppend(r.trades, t, initialCapital);
      assert f.trades[|r.trades|] == t;
    } else {
      assert f == r;
    }
  }

  /** Each Sell closes the Buy before it with the same shares; a Sell driven
      by the position column carries `(exit - entry) / entry * 100`, the forced
      final Sell carries no pnl, and a Buy never carries one. */
  lemma SellPnl(closes: seq<real>, positions: seq<Option<int>>, initialCapital: real, k: nat)
    requires AllPositive(closes) && |positions| == |closes|
    requires k < |Simulate(closes, positions, initialCapital).trades|
    ensures var r, t := Replay(closes, positions, initialCapital, |closes|), Simulate(closes, positions, initialCapital).trades;
            && (t[k].side == Buy ==> t[k].pnl.None?)
            && (t[k].side == Sell ==>
                  && k > 0 && t[k].shares == t[k - 1].shares && t[k - 1].price > 0.0
                  && t[k].pnl == if k == |r.trades| then None else Some(Pnl(t[k - 1].price, t[k].price)))
  {
    var r := Replay(closes, positions, initialCapital, |closes|);
    ReplayLedger(closes, positions, initialCapital, |closes|);
    ForcedLiquidation(closes, positions, initialCapital);
    var t := Simulate(closes, positions, initialCapital).trades;
    if k < |r.trades| {
      assert t[k] == r.trades[k];
      assert k > 0 ==> t[k - 1] == r.trades[k - 1];
      assert r.trades[k].side == Buy ==> r.trades[k].pnl.None?;
    } else {
      assert t[k - 1] == r.trades[k - 1];
    }
  }

  /** With positive initial capital the book is worth something at the
      close of every bar. */
  lemma LastEquityPositive(closes: seq<real>, positions: seq<Option<int>>, initialCapital: real, n: nat)
    requires AllPositive(closes) && |positions| == |closes| && 0 < n <= |closes|
    requires initialCapital > 0.0
    ensures Replay(closes, positions, initialCapital, n).equity[n - 1] > 0.0
  {
    var r := Replay(closes, positions, initialCapital, n);
    LastEquity(closes, positions, initialCapital, n);
    ReplayBook(closes, positions, initialCapital, n);
    if r.inPosition {
      PositiveProduct(r.shares, closes[n - 1]);
    }
  }

  /** With positive initial capital every equity value is positive. */
  lemma {:induction false} PositiveEquity(closes: seq<real>, positions: seq<Option<int>>, initialCapital: real, n: nat)
    requires AllPositive(closes) && |positions| == |closes| && n <= |closes|
    requires initialCapital > 0.0
    ensures forall i :: 0 <= i < n ==> Replay(closes, positions, initialCapital, n).equity[i] > 0.0
  {
    if n > 0 {
      PositiveEquity(closes, positions, initialCapital, n - 1);
      var p, r := Replay(closes, positions, initialCapital, n - 1), Replay(closes, positions, initialCapital, n);
      StepPrefix(p, n - 1, closes[n - 1], positions[n - 1]);
      LastEquityPositive(closes, positions, initialCapital, n);
      forall i | 0 <= i < n ensures r.equity[i] > 0.0 {
        if i < n - 1 {
          assert r.equity[i] == r.equity[..n - 1][i] == p.equity[i];
        }
      }
    }
  }

  /** With no initial capital, or a negative one, the buy rule never fires:
      nothing is traded and the curve stays at the initial capital. */
  lemma {:induction false} NoCapital(closes: seq<real>, positions: seq<Option<int>>, initialCapital: real, n: nat)
    requires AllPositive(closes) && |positions| == |closes| && n <= |closes|
    requires initialCapital <= 0.0
    ensures var r := Replay(closes, positions, initialCapital, n);
            && r.trades == [] && !r.inPosition && r.capital == initialCapital
            && forall i :: 0 <= i < n ==> r.equity[i] == initialCapital
  {
    if n > 0 {
      NoCapital(closes, positions, initialCapital, n - 1);
      var p, r := Replay(closes, positions, initialCapital, n - 1), Replay(closes, positions, initialCapital, n);
      StepExtends(p, n - 1, closes[n - 1], positions[n - 1]);
      forall i | 0 <= i < n ensures r.equity[i] == initialCapital {
        if i < n - 1 {
          assert r.equity[i] == r.equity[..n - 1][i] == p.equity[i];
        }
      }
    }
  }

  /** The sign of the equity is that of the initial capital: with positive
      capital every equity value is positive; with none or a negative one no
      trade happens and the curve stays at the initial capital. */
  lemma EquitySign(closes: seq<real>, positions: seq<Option<int>>, initialCapital: real, n: nat)
    requires AllPositive(closes) && |positions| == |closes| && n <= |closes|
    ensures var r := Replay(closes, positions, initialCapital, n);
            && (initialCapital > 0.0 ==> forall i :: 0 <= i < n ==> r.equity[i] > 0.0)
            && (initialCapital <= 0.0 ==>
                  r.trades == [] && !r.inPosition && r.capital == initialCapital
                  && forall i :: 0 <= i < n ==> r.equity[i] == initialCapital)
  {
    if initialCapital > 0.0 {
      PositiveEquity(closes, positions, initialCapital, n);
    } else {
      NoCapital(closes, positions, initialCapital, n);
    }
  }

  /** A run without any trade keeps the initial capital as cash and as the
      equity of every bar. */
  lemma IdleRun(closes: seq<real>, positions: seq<Option<int>>, initialCapital: real)
    requires AllPositive(closes) && |positions| == |closes|
    requires Simulate(closes, positions, initialCapital).trades == []
    ensures var f := Simulate(closes, positions, initialCapital);
            && f.capital == initialCapital
            && forall i :: 0 <= i < |f.equity| ==> f.equity[i] == initialCapital
  {
    var r := Replay(closes, positions, initialCapital, |closes|);
    ForcedLiquidation(closes, positions, initialCapital);
    ReplayBook(closes, positions, initialCapital, |closes|);
    forall i | 0 <= i < |closes| ensures r.equity[i] == initialCapital {
      var after := Replay(closes, positions, initialCapital, i + 1);
      ReplayPrefix(closes, positions, initialCapital, i + 1, |closes|);
      ReplayBook(closes, positions, initialCapital, i + 1);
      EquityOfBar(closes, positions, initialCapital, i);
    }
  }
}
