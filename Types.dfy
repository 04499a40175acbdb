/** The values a strategy is evaluated against: Java's 32-bit tick indices,
    the lifecycle state of a trade, and the trading record that exposes the
    current trade. Only the query surface the strategy needs is modelled. */
module Types {

  /** Java's `int`: tick indices and unstable periods are 32-bit signed. */
  newtype int32 = x: int | -0x8000_0000 <= x < 0x8000_0000

  /** A possibly absent value; `None` stands for a Java `null` reference. */
  datatype Option<+T> = None | Some(value: T)

  /** The lifecycle of a trade: no order yet, entered, or entered and exited. */
  datatype TradeState = New | Opened | Closed

  /** A trade, seen only through its lifecycle state. */
  datatype Trade = Trade(state: TradeState) {
    predicate IsNew() { state == New }
    predicate IsOpened() { state == Opened }
    predicate IsClosed() { state == Closed }
  }

  /** A trading record, seen only through its current trade. */
  datatype TradingRecord = TradingRecord(currentTrade: Trade)
}
