/** The trading tables of vpp_repository.py for one tenant, and every transaction on them as a function
    from the old tables to the new ones or to the error that rolls the transaction back. */
module TradingDb {
  import opened RealMath
  import opened OrderLedger
  import opened Wrappers

  datatype Trade = Trade(id: string, orderId: string, marketTradeId: string, quantityKw: real, pricePerKwh: real)

  datatype Schedule = Schedule(tradeId: string, orderId: string, stationId: string, baselineKw: real,
                               adjustmentKw: real, targetGridKw: real)

  datatype MessageStatus = Pending | Publishing | Published | RetryLater | DeadLetter

  datatype Message = Message(orderId: string, topic: string, status: MessageStatus, attempts: nat, maxAttempts: nat,
                             lockedBy: Option<string>, leaseExpiresAt: Option<int>, availableAt: int)

  const SUBMIT_TOPIC := "market.order.submit"

  const DEFAULT_MAX_ATTEMPTS: nat := 8

  datatype Db = Db(orders: map<string, Order>, trades: seq<Trade>, schedules: seq<Schedule>,
                   outbox: map<string, Message>)

  /** What the environment supplies: the hash, the client id derived from an idempotency key. */
  datatype Env = Env(hash: Hasher, clientOrderId: string -> string)

  // ---------------------------------------------------------------------------------------
  // Orders
  // ---------------------------------------------------------------------------------------

  predicate KeyUsed(db: Db, key: string) { exists id :: id in db.orders && db.orders[id].idempotencyKey == key }

  predicate ClientIdUsed(db: Db, clientId: string) {
    exists id :: id in db.orders && db.orders[id].clientOrderId == clientId
  }

  /** create_market_order: a known idempotency key changes nothing; an approved order gets its outbox
      message in the same transaction. */
  function CreateOrder(env: Env, db: Db, orderId: string, messageId: string, key: string, quantityKw: real,
                       allocation: seq<Allocation>, approved: bool, actor: string, decision: string, now: int)
    : Outcome<Db>
  {
    var clientId := env.clientOrderId(key);
    if quantityKw <= 0.0 then Err(InvalidQuantity)
    else if orderId in db.orders then Err(DuplicateKey)
    else if KeyUsed(db, key) then Ok(db)
    else if ClientIdUsed(db, clientId) || (approved && messageId in db.outbox) then Err(DuplicateKey)
    else
      var o := NewOrder(env.hash, orderId, clientId, key, quantityKw, allocation, approved, actor, decision);
      var m := Message(orderId, SUBMIT_TOPIC, Pending, 0, DEFAULT_MAX_ATTEMPTS, None, None, now);
      Ok(db.(orders := db.orders[orderId := o], outbox := if approved then db.outbox[messageId := m] else db.outbox))
  }

  function TransitionOrder(env: Env, db: Db, orderId: string, target: Status, actor: string, payload: string,
                           marketOrderId: Option<string>): Outcome<Db>
  {
    if orderId !in db.orders then Err(UnknownOrder)
    else
      match Transition(env.hash, db.orders[orderId], target, actor, payload, marketOrderId)
      case Err(e) => Err(e)
      case Ok(o) => Ok(db.(orders := db.orders[orderId := o]))
  }

  function ReconcileOrder(env: Env, db: Db, orderId: string, outcome: Reconciliation, actor: string, payload: string)
    : Outcome<Db>
  {
    if orderId !in db.orders then Err(UnknownOrder)
    else Ok(db.(orders := db.orders[orderId := MarkReconciled(env.hash, db.orders[orderId], outcome, actor, payload)]))
  }

  // ---------------------------------------------------------------------------------------
  // Outbox
  // ---------------------------------------------------------------------------------------

  /** The claim query's condition on one row. */
  predicate Due(m: Message, now: int) {
    && m.attempts < m.maxAttempts
    && ((m.status in {Pending, RetryLater} && m.availableAt <= now) ||
        (m.status == Publishing && m.leaseExpiresAt.Some? && m.leaseExpiresAt.value < now))
  }

  function Leased(m: Message, worker: string, until: int): Message {
    m.(status := Publishing, attempts := m.attempts + 1, lockedBy := Some(worker), leaseExpiresAt := Some(until))
  }

  /** claim_outbox_messages, given the due rows the query picked (not locked by others, within the limit). */
  function Claim(db: Db, chosen: set<string>, worker: string, now: int, leaseSeconds: int): Db
    requires forall m :: m in chosen ==> m in db.outbox && Due(db.outbox[m], now)
  {
    db.(outbox := map m | m in db.outbox ::
          if m in chosen then Leased(db.outbox[m], worker, now + leaseSeconds) else db.outbox[m])
  }

  function FinishedStatus(m: Message, published: bool): MessageStatus {
    if published then Published else if m.attempts >= m.maxAttempts then DeadLetter else RetryLater
  }

  /** finish_outbox_message. */
  function Finish(db: Db, id: string, worker: string, published: bool, now: int, retryDelay: int): Outcome<Db> {
    if id !in db.outbox then Err(UnknownMessage)
    else
      var m := db.outbox[id];
      if m.lockedBy != Some(worker) then Err(LeaseLost)
      else
        var next := FinishedStatus(m, published);
        Ok(db.(outbox := db.outbox[id :=
             m.(status := next, lockedBy := None, leaseExpiresAt := None,
                availableAt := if next == RetryLater then now + retryDelay else m.availableAt)]))
  }

  // ---------------------------------------------------------------------------------------
  // Trade fills
  // ---------------------------------------------------------------------------------------

  const FULL_FILL_SLACK: real := 0.001

  predicate TradeRecorded(db: Db, marketTradeId: string) {
    exists i :: 0 <= i < |db.trades| && db.trades[i].marketTradeId == marketTradeId
  }

  predicate TradeIdUsed(db: Db, tradeId: string) {
    exists i :: 0 <= i < |db.trades| && db.trades[i].id == tradeId
  }

  /** The quantity a fill actually takes. */
  function FillOf(o: Order, quantityKw: real): real { Min(quantityKw, o.quantityKw - o.filledKw) }

  function PriceOf(o: Order): real { if o.averagePrice.Some? then o.averagePrice.value else 0.0 }

  function FilledStatus(o: Order, newFilled: real): Status {
    if newFilled >= o.quantityKw - FULL_FILL_SLACK then Filled else PartiallyFilled
  }

  function FilledOrder(h: Hasher, o: Order, fill: real, pricePerKwh: real, actor: string, payload: string): Order
    requires o.filledKw + fill != 0.0
  {
    var newFilled := o.filledKw + fill;
    var target := FilledStatus(o, newFilled);
    o.(filledKw := newFilled,
       averagePrice := Some((Mul(PriceOf(o), o.filledKw) + Mul(pricePerKwh, fill)) / newFilled),
       status := target,
       events := Append(h, o.id, o.events, TradeFill, Some(o.status), At(target), actor, payload))
  }

  predicate ScheduleExists(schedules: seq<Schedule>, tradeId: string, stationId: string) {
    exists i :: 0 <= i < |schedules| && schedules[i].tradeId == tradeId && schedules[i].stationId == stationId
  }

  /** Delivery schedules for the first k allocations, one per trade and station. */
  function Scheduled(schedules: seq<Schedule>, tradeId: string, o: Order, scale: real, k: nat): seq<Schedule>
    requires k <= |o.allocation|
  {
    if k == 0 then schedules
    else
      var before := Scheduled(schedules, tradeId, o, scale, k - 1);
      var a := o.allocation[k - 1];
      var adjustment := Mul(a.targetKw, scale);
      if ScheduleExists(before, tradeId, a.stationId) then before
      else before + [Schedule(tradeId, o.id, a.stationId, a.baselineKw, adjustment,
                              Max(0.0, a.baselineKw - adjustment))]
  }

  /** record_trade_fill. A market trade id that is already recorded changes nothing. */
  function RecordFill(env: Env, db: Db, tradeId: string, orderId: string, marketTradeId: string, quantityKw: real,
                      pricePerKwh: real, actor: string, payload: string): Outcome<Db>
  {
    if orderId !in db.orders then Err(UnknownOrder)
    else
      var o := db.orders[orderId];
      var fill := FillOf(o, quantityKw);
      if o.status !in {Submitted, PartiallyFilled} then Err(NotFillable)
      else if fill <= 0.0 then Err(NothingToFill)
      else if TradeRecorded(db, marketTradeId) then Ok(db)
      else if TradeIdUsed(db, tradeId) then Err(DuplicateKey)
      else if pricePerKwh < 0.0 then Err(NegativePrice)
      else if o.quantityKw == 0.0 || o.filledKw + fill == 0.0 then Err(ZeroDivision)
      else
        Ok(db.(trades := db.trades + [Trade(tradeId, orderId, marketTradeId, fill, pricePerKwh)],
               orders := db.orders[orderId := FilledOrder(env.hash, o, fill, pricePerKwh, actor, payload)],
               schedules := Scheduled(db.schedules, tradeId, o, fill / o.quantityKw, |o.allocation|)))
  }
}
