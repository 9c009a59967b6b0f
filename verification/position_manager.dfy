/** `PositionManager` (position_manager.py): open positions by symbol, a cap
    on how many may be open, and a timeout after which a position is closed
    at its entry price. The wall clock is a parameter (seconds). */
module PositionManager {
  import opened Common
  import opened BotConfig

  datatype Status = Open

  datatype Position = Position(entry: real, sl: real, tp: real, openTime: real, status: Status)

  datatype Manager = Manager(positions: map<string, Position>, maxPositions: int, timeoutHours: real)

  const DefaultMaxPositions: int := 5
  const DefaultTimeoutHours: real := 24.0
  const SecondsPerHour: real := 3600.0

  /** `__init__`: no positions, cap and timeout from the risk section. */
  function Init(cfg: Config): (m: Manager)
    ensures m.positions == map[]
    ensures cfg.risk.None? ==> m.maxPositions == DefaultMaxPositions && m.timeoutHours == DefaultTimeoutHours
    ensures cfg.risk.Some? && cfg.risk.value.maxPositions.Some? ==> m.maxPositions == cfg.risk.value.maxPositions.value
    ensures cfg.risk.Some? && cfg.risk.value.maxPositions.None? ==> m.maxPositions == DefaultMaxPositions
    ensures cfg.risk.Some? && cfg.risk.value.positionTimeout.Some? ==> m.timeoutHours == cfg.risk.value.positionTimeout.value
    ensures cfg.risk.Some? && cfg.risk.value.positionTimeout.None? ==> m.timeoutHours == DefaultTimeoutHours
  {
    Manager(map[], MaxPositionsOr(cfg, DefaultMaxPositions), PositionTimeoutOr(cfg, DefaultTimeoutHours))
  }

  /** The cap holds: no more positions than `max_positions`. */
  predicate WithinCap(m: Manager) {
    |m.positions| <= m.maxPositions
  }

  /** `open_position`: refused when the book is full (even for a symbol
      already held), otherwise the symbol's entry is (re)written. */
  function OpenPosition(m: Manager, symbol: string, entry: real, sl: real, tp: real, now: real): (r: (Manager, bool))
    ensures r.1 <==> |m.positions| < m.maxPositions
    ensures r.1 ==> r.0.positions == m.positions[symbol := Position(entry, sl, tp, now, Open)]
    ensures !r.1 ==> r.0 == m
    ensures r.0.maxPositions == m.maxPositions && r.0.timeoutHours == m.timeoutHours
  {
    if |m.positions| >= m.maxPositions then (m, false)
    else (m.(positions := m.positions[symbol := Position(entry, sl, tp, now, Open)]), true)
  }

  /** Opening never breaks the cap, and a refused open leaves the book as it was. */
  lemma OpenKeepsCap(m: Manager, symbol: string, entry: real, sl: real, tp: real, now: real)
    requires WithinCap(m)
    ensures WithinCap(OpenPosition(m, symbol, entry, sl, tp, now).0)
  {
    var r := OpenPosition(m, symbol, entry, sl, tp, now);
    if r.1 {
      assert r.0.positions.Keys == m.positions.Keys + {symbol};
      assert |m.positions.Keys + {symbol}| <= |m.positions.Keys| + 1;
    }
  }

  /** `close_position`: drops the symbol and yields the logged short PnL
      (entry minus exit, size 1); an unknown symbol changes nothing. */
  function ClosePosition(m: Manager, symbol: string, exitPrice: real): (r: (Manager, Option<real>))
    ensures symbol in m.positions ==>
              && r.0.positions == m.positions - {symbol}
              && r.1 == Some(m.positions[symbol].entry - exitPrice)
    ensures symbol !in m.positions ==> r == (m, None)
    ensures r.0.maxPositions == m.maxPositions && r.0.timeoutHours == m.timeoutHours
  {
    if symbol in m.positions then
      (m.(positions := m.positions - {symbol}), Some(m.positions[symbol].entry - exitPrice))
    else (m, None)
  }

  /** Opening a symbol not yet held and closing it again restores the book,
      and the short's PnL is positive exactly when the exit is below the entry. */
  lemma OpenThenCloseRestores(m: Manager, symbol: string, entry: real, sl: real, tp: real, now: real, exitPrice: real)
    requires symbol !in m.positions && |m.positions| < m.maxPositions
    ensures var closed := ClosePosition(OpenPosition(m, symbol, entry, sl, tp, now).0, symbol, exitPrice);
            && closed.0 == m
            && closed.1 == Some(entry - exitPrice)
            && (closed.1.value > 0.0 <==> exitPrice < entry)
  {
    var afterOpen := OpenPosition(m, symbol, entry, sl, tp, now).0;
    assert afterOpen.positions - {symbol} == m.positions;
  }

  /** A position has timed out when more than `position_timeout` hours have
      passed since it opened. */
  predicate Expired(p: Position, now: real, timeoutHours: real) {
    (now - p.openTime) / SecondsPerHour > timeoutHours
  }

  /** The positions a timeout sweep keeps. */
  function Survivors(m: Manager, now: real): (kept: map<string, Position>)
    ensures forall s :: s in kept <==> s in m.positions && !Expired(m.positions[s], now, m.timeoutHours)
    ensures forall s :: s in kept ==> kept[s] == m.positions[s]
  {
    map s | s in m.positions && !Expired(m.positions[s], now, m.timeoutHours) :: m.positions[s]
  }

  /** `check_timeouts`: closes every expired position at its entry price,
      one symbol at a time. Returns the symbols closed. */
  method CheckTimeouts(m: Manager, now: real) returns (r: Manager, closed: seq<string>)
    ensures r.positions == Survivors(m, now)
    ensures r.maxPositions == m.maxPositions && r.timeoutHours == m.timeoutHours
    ensures forall s :: s in closed <==> s in m.positions && Expired(m.positions[s], now, m.timeoutHours)
    ensures forall i, j :: 0 <= i < j < |closed| ==> closed[i] != closed[j]
  {
    r := m;
    closed := [];
    var pending := m.positions.Keys;
    while pending != {}
      invariant pending <= m.positions.Keys
      invariant r.maxPositions == m.maxPositions && r.timeoutHours == m.timeoutHours
      invariant forall s :: s in r.positions <==> s in m.positions && (s in pending || !Expired(m.positions[s], now, m.timeoutHours))
      invariant forall s :: s in r.positions ==> r.positions[s] == m.positions[s]
      invariant forall s :: s in closed <==> s in m.positions && s !in pending && Expired(m.positions[s], now, m.timeoutHours)
      invariant forall i, j :: 0 <= i < j < |closed| ==> closed[i] != closed[j]
      decreases pending
    {
      var s :| s in pending;
      var pos := m.positions[s];
      if Expired(pos, now, m.timeoutHours) {
        var after := ClosePosition(r, s, pos.entry);
        r := after.0;
        closed := closed + [s];
      }
      pending := pending - {s};
    }
  }

  /** A sweep never breaks the cap, and a second sweep at the same instant
      closes nothing. */
  lemma SweepKeepsCapAndSettles(m: Manager, now: real)
    requires WithinCap(m)
    ensures |Survivors(m, now)| <= m.maxPositions
    ensures Survivors(Manager(Survivors(m, now), m.maxPositions, m.timeoutHours), now) == Survivors(m, now)
  {
    var kept := Survivors(m, now);
    assert kept.Keys <= m.positions.Keys;
    SubsetCardinality(kept.Keys, m.positions.Keys);
  }

  lemma SubsetCardinality<T>(a: set<T>, b: set<T>)
    requires a <= b
    ensures |a| <= |b|
  {
    assert b == a + (b - a);
  }
}
