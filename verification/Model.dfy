/** The engine's commands, events and results, and the validation that every
    book runs before it touches its state (internal/model/types.go). */
module Model {

  // Go's fixed-width integers. Wrap-around is written out where it can happen.
  type uint8 = x: int | 0 <= x < 0x100
  type uint16 = x: int | 0 <= x < 0x1_0000
  type uint32 = x: int | 0 <= x < 0x1_0000_0000
  type uint64 = x: int | 0 <= x < 0x1_0000_0000_0000_0000
  type int64 = x: int | -0x8000_0000_0000_0000 <= x < 0x8000_0000_0000_0000

  /** The quantity of a resting order: a positive int64. */
  type quantity = x: int | 0 < x < 0x8000_0000_0000_0000 witness 1

  /** Go strings are byte sequences. */
  type Symbol = seq<uint8>

  const SIDE_BUY: uint8 := 1
  const SIDE_SELL: uint8 := 2

  const COMMAND_NEW: uint8 := 1
  const COMMAND_CANCEL: uint8 := 2
  const COMMAND_REPLACE: uint8 := 3

  const TYPE_LIMIT: uint8 := 1
  const TYPE_MARKET: uint8 := 2

  const TIF_GTC: uint8 := 1
  const TIF_IOC: uint8 := 2
  const TIF_FOK: uint8 := 3

  const REJECT_NONE: uint16 := 0
  const REJECT_INVALID_SYMBOL: uint16 := 1
  const REJECT_INVALID_PRICE: uint16 := 2
  const REJECT_INVALID_QUANTITY: uint16 := 3
  const REJECT_DUPLICATE_ORDER_ID: uint16 := 4
  const REJECT_UNKNOWN_ORDER_ID: uint16 := 5
  const REJECT_INVALID_REPLACE: uint16 := 6
  const REJECT_WOULD_NOT_FULLY_FILL: uint16 := 7
  const REJECT_INVALID_ORDER_ID: uint16 := 8
  const REJECT_INVALID_SIDE: uint16 := 9
  const REJECT_INVALID_ORDER_TYPE: uint16 := 10
  const REJECT_INVALID_TIF: uint16 := 11
  const REJECT_INVALID_COMMAND_TYPE: uint16 := 12

  const CANCEL_BY_USER: uint8 := 1
  const CANCEL_UNFILLED_REMAINDER: uint8 := 2

  const EVENT_ACCEPTED: uint8 := 1
  const EVENT_REJECTED: uint8 := 2
  const EVENT_TRADE: uint8 := 3
  const EVENT_REDUCED: uint8 := 4
  const EVENT_RESTED: uint8 := 5
  const EVENT_CANCELED: uint8 := 6
  const EVENT_REPLACED: uint8 := 7

  datatype Option<+T> = None | Some(value: T)

  datatype Command = Command(
    sequence: uint64,
    symbol: Symbol,
    kind: uint8,
    orderId: uint64,
    side: uint8,
    orderType: uint8,
    tif: uint8,
    price: int64,
    quantity: int64,
    newPrice: int64,
    newLeaves: int64)

  datatype Event = Event(
    kind: uint8,
    reason: uint16,
    orderId: uint64,
    makerId: uint64,
    takerId: uint64,
    tradeId: uint64,
    price: int64,
    quantity: int64,
    leaves: int64,
    canceled: int64,
    cancelReason: uint8,
    priorityRetained: bool)

  datatype Result = Result(sequence: uint64, events: seq<Event>)

  function Accepted(id: uint64): Event {
    Event(EVENT_ACCEPTED, REJECT_NONE, id, 0, 0, 0, 0, 0, 0, 0, 0, false)
  }

  function Rejected(id: uint64, reason: uint16): Event {
    Event(EVENT_REJECTED, reason, id, 0, 0, 0, 0, 0, 0, 0, 0, false)
  }

  function Trade(tradeId: uint64, maker: uint64, taker: uint64, price: int64, qty: int64): Event {
    Event(EVENT_TRADE, REJECT_NONE, 0, maker, taker, tradeId, price, qty, 0, 0, 0, false)
  }

  function Reduced(id: uint64, leaves: int64): Event {
    Event(EVENT_REDUCED, REJECT_NONE, id, 0, 0, 0, 0, 0, leaves, 0, 0, false)
  }

  function Rested(id: uint64, price: int64, leaves: int64): Event {
    Event(EVENT_RESTED, REJECT_NONE, id, 0, 0, 0, price, 0, leaves, 0, 0, false)
  }

  function Canceled(id: uint64, qty: int64, reason: uint8): Event {
    Event(EVENT_CANCELED, REJECT_NONE, id, 0, 0, 0, 0, 0, 0, qty, reason, false)
  }

  function Replaced(id: uint64, price: int64, leaves: int64, retained: bool): Event {
    Event(EVENT_REPLACED, REJECT_NONE, id, 0, 0, 0, price, 0, leaves, 0, 0, retained)
  }

  /** The reason a rejected command is answered with; REJECT_NONE when it is fine. */
  function RejectReason(c: Command): (reason: uint16) {
    if c.symbol == [] then REJECT_INVALID_SYMBOL
    else if c.kind == COMMAND_NEW then
      if c.orderId == 0 then REJECT_INVALID_ORDER_ID
      else if c.side != SIDE_BUY && c.side != SIDE_SELL then REJECT_INVALID_SIDE
      else if c.orderType != TYPE_LIMIT && c.orderType != TYPE_MARKET then REJECT_INVALID_ORDER_TYPE
      else if c.tif != TIF_GTC && c.tif != TIF_IOC && c.tif != TIF_FOK then REJECT_INVALID_TIF
      else if c.quantity <= 0 then REJECT_INVALID_QUANTITY
      else if c.orderType == TYPE_LIMIT && c.price <= 0 then REJECT_INVALID_PRICE
      else REJECT_NONE
    else if c.kind == COMMAND_CANCEL then
      if c.orderId == 0 then REJECT_INVALID_ORDER_ID else REJECT_NONE
    else if c.kind == COMMAND_REPLACE then
      if c.orderId == 0 then REJECT_INVALID_ORDER_ID
      else if c.newLeaves <= 0 || c.newPrice < 0 then REJECT_INVALID_REPLACE
      else REJECT_NONE
    else REJECT_INVALID_COMMAND_TYPE
  }

  /** Validation proper, written separately in the source. It fails on exactly
      the commands that have a reject reason, so a rejection always carries one. */
  predicate Validates(c: Command): (ok: bool)
    ensures ok <==> RejectReason(c) == REJECT_NONE
  {
    && c.symbol != []
    && (if c.kind == COMMAND_NEW then
          && c.orderId != 0
          && (c.side == SIDE_BUY || c.side == SIDE_SELL)
          && (c.orderType == TYPE_LIMIT || c.orderType == TYPE_MARKET)
          && (c.tif == TIF_GTC || c.tif == TIF_IOC || c.tif == TIF_FOK)
          && c.quantity > 0
          && (c.orderType == TYPE_LIMIT ==> c.price > 0)
        else if c.kind == COMMAND_CANCEL then c.orderId != 0
        else if c.kind == COMMAND_REPLACE then c.orderId != 0 && c.newLeaves > 0 && c.newPrice >= 0
        else false)
  }
}
