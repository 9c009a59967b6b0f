/** `PaperTradingSimulator` (paper_trader.py): simulated short positions, a
    trade ledger and an equity figure that every close moves by the trade's
    PnL. */
module PaperTrader {

  datatype Holding = Holding(entry: real, size: real)

  datatype Trade = Trade(symbol: string, entry: real, exit: real, pnl: real)

  datatype Simulator = Simulator(balance: real, equity: real, positions: map<string, Holding>, trades: seq<Trade>)

  const DefaultBalance: real := 1000.0
  const DefaultSize: real := 1.0

  /** The sum of the recorded trades' PnL. */
  function TotalPnl(trades: seq<Trade>): real {
    if trades == [] then 0.0 else TotalPnl(trades[..|trades| - 1]) + trades[|trades| - 1].pnl
  }

  /** The simulator's bookkeeping invariant: equity is the starting balance
      plus the PnL of every recorded trade. */
  predicate Ledger(sim: Simulator) {
    sim.equity == sim.balance + TotalPnl(sim.trades)
  }

  /** `__init__`. */
  function New(initialBalance: real): (sim: Simulator)
    ensures sim.balance == initialBalance && sim.positions == map[] && sim.trades == []
    ensures Ledger(sim)
  {
    Simulator(initialBalance, initialBalance, map[], [])
  }

  /** `PaperTradingSimulator()` with the default starting balance of 1000. */
  function NewDefault(): (sim: Simulator)
    ensures sim.balance == 1000.0 && sim.equity == 1000.0
    ensures sim.positions == map[] && sim.trades == []
  {
    New(DefaultBalance)
  }

  /** `open_position`: records (or replaces) the holding; no money moves. */
  function Open(sim: Simulator, symbol: string, entry: real, size: real): (r: Simulator)
    ensures r.positions == sim.positions[symbol := Holding(entry, size)]
    ensures r.balance == sim.balance && r.equity == sim.equity && r.trades == sim.trades
  {
    sim.(positions := sim.positions[symbol := Holding(entry, size)])
  }

  /** The ledger entry for closing holding h at exitPrice: a short gains
      (entry - exit) per unit of size. */
  function ShortTrade(symbol: string, h: Holding, exitPrice: real): Trade {
    Trade(symbol, h.entry, exitPrice, (h.entry - exitPrice) * h.size)
  }

  /** `close_position`: a held symbol is removed and one trade with the
      short's PnL, (entry - exit) * size, is appended and added to equity;
      closing a symbol not held changes nothing. The ledger invariant holds
      afterwards whenever it held before. */
  function Close(sim: Simulator, symbol: string, exitPrice: real): (r: Simulator)
    ensures symbol !in sim.positions ==> r == sim
    ensures symbol in sim.positions ==>
              && r.positions == sim.positions - {symbol}
              && r.trades == sim.trades + [ShortTrade(symbol, sim.positions[symbol], exitPrice)]
              && r.balance == sim.balance
    ensures Ledger(sim) ==> Ledger(r)
  {
    if symbol in sim.positions then
      var h := sim.positions[symbol];
      var t := ShortTrade(symbol, h, exitPrice);
      var pnl := t.pnl;
      var trades := sim.trades + [t];
      assert trades[..|trades| - 1] == sim.trades;
      Simulator(sim.balance, sim.equity + pnl, sim.positions - {symbol}, trades)
    else sim
  }

  /** A close on a positive size gains exactly when the price fell. */
  lemma ShortGainsWhenPriceFalls(sim: Simulator, symbol: string, exitPrice: real)
    requires symbol in sim.positions && sim.positions[symbol].size > 0.0
    ensures var r := Close(sim, symbol, exitPrice);
            r.trades[|r.trades| - 1].pnl > 0.0 <==> exitPrice < sim.positions[symbol].entry
  {
    var h := sim.positions[symbol];
    if exitPrice < h.entry {
      assert (h.entry - exitPrice) * h.size > 0.0;
    } else {
      assert (h.entry - exitPrice) * h.size <= 0.0;
    }
  }

  /** At the default size of one unit, opening and then closing a symbol
      records a PnL of exactly entry - exit and moves equity by that much. */
  lemma DefaultSizeRoundTrip(sim: Simulator, symbol: string, entry: real, exitPrice: real)
    ensures var r := Close(Open(sim, symbol, entry, DefaultSize), symbol, exitPrice);
            && r.trades == sim.trades + [Trade(symbol, entry, exitPrice, entry - exitPrice)]
            && r.equity == sim.equity + (entry - exitPrice)
            && r.positions == sim.positions - {symbol}
  {
    var held := Open(sim, symbol, entry, DefaultSize);
    assert held.positions[symbol] == Holding(entry, 1.0);
    assert held.positions - {symbol} == sim.positions - {symbol};
  }

  /** One simulator call. */
  datatype Op = OpenOp(symbol: string, entry: real, size: real) | CloseOp(symbol: string, exitPrice: real)

  function Apply(sim: Simulator, op: Op): Simulator {
    match op
    case OpenOp(s, e, z) => Open(sim, s, e, z)
    case CloseOp(s, x) => Close(sim, s, x)
  }

  /** Any sequence of calls, applied in order. */
  function Run(sim: Simulator, ops: seq<Op>): Simulator
    decreases |ops|
  {
    if ops == [] then sim else Run(Apply(sim, ops[0]), ops[1..])
  }

  /** Whatever calls are made from a fresh simulator, equity stays the
      starting balance plus the sum of the recorded trades, and the ledger
      only grows. */
  lemma {:induction false} RunKeepsLedger(sim: Simulator, ops: seq<Op>)
    requires Ledger(sim)
    ensures Ledger(Run(sim, ops))
    ensures Run(sim, ops).balance == sim.balance
    ensures |Run(sim, ops).trades| >= |sim.trades| && Run(sim, ops).trades[..|sim.trades|] == sim.trades
    decreases |ops|
  {
    if ops != [] {
      var next := Apply(sim, ops[0]);
      RunKeepsLedger(next, ops[1..]);
      assert next.trades[..|sim.trades|] == sim.trades;
    }
  }
}
