/** The repository object: its fields are the tables, its methods the transactions. Each method is
    proved against the table functions of TradingDb, and to keep the ledger invariant. */
module TradingStore {
  import opened RealMath
  import opened OrderLedger
  import opened TradingDb
  import opened TradingRuns
  import opened Wrappers

  lemma WrittenTwice(orders: map<string, Order>, id: string, first: Order, second: Order)
    ensures orders[id := first][id := second] == orders[id := second]
  {}

  /** The row a legal transition writes, before its event is appended. */
  function Moved(o: Order, target: Status, marketOrderId: Option<string>): Order {
    o.(status := target, marketOrderId := if marketOrderId.Some? then marketOrderId else o.marketOrderId)
  }

  lemma TransitionCases(env: Env, db: Db, orderId: string, target: Status, actor: string, payload: string,
                        marketOrderId: Option<string>)
    ensures var r := TransitionOrder(env, db, orderId, target, actor, payload, marketOrderId);
            if orderId !in db.orders then r == Err(UnknownOrder)
            else
              var o := db.orders[orderId];
              if target !in Transitions(o.status) then r == Err(InvalidTransition)
              else
                var moved := Moved(o, target, marketOrderId);
                var events := Append(env.hash, o.id, o.events, StatusTransition, Some(o.status), Mark.At(target), actor,
                                     payload);
                r == Ok(db.(orders := db.orders[orderId := moved.(events := events)]))
  {
    hide Append, Transitions;
  }

  lemma TransitionKeepsLedgerIf(env: Env, db: Db, orderId: string, target: Status, actor: string, payload: string,
                                marketOrderId: Option<string>)
    ensures var r := TransitionOrder(env, db, orderId, target, actor, payload, marketOrderId);
            LedgerOk(env, db) && r.Ok? ==> LedgerOk(env, r.value)
  {
    hide LedgerOk, TransitionOrder;
    if LedgerOk(env, db) { TransitionKeepsLedger(env, db, orderId, target, actor, payload, marketOrderId); }
  }

  lemma NoteKeepsLedgerIf(env: Env, db: Db, orderId: string, outcome: Reconciliation, actor: string, payload: string)
    ensures var r := ReconcileOrder(env, db, orderId, outcome, actor, payload);
            LedgerOk(env, db) && r.Ok? ==> LedgerOk(env, r.value)
  {
    hide LedgerOk, ReconcileOrder;
    if LedgerOk(env, db) { NoteKeepsLedger(env, db, orderId, outcome, actor, payload); }
  }

  class Store {
    const env: Env
    var orders: map<string, Order>
    var trades: seq<Trade>
    var schedules: seq<Schedule>
    var outbox: map<string, Message>

    function Snapshot(): Db
      reads this
    {
      Db(orders, trades, schedules, outbox)
    }

    constructor (env: Env)
      ensures this.env == env && Snapshot() == Db(map[], [], [], map[]) && LedgerOk(env, Snapshot())
    {
      this.env := env;
      orders, trades, schedules, outbox := map[], [], [], map[];
    }

    /** _append_order_event. */
    method AppendOrderEvent(orderId: string, kind: EventKind, from: Option<Status>, to: Mark, actor: string,
                            payload: string)
      requires orderId in orders
      modifies this`orders
      ensures var o := old(orders[orderId]);
              orders == old(orders)[orderId := o.(events := Append(env.hash, o.id, o.events, kind, from, to, actor,
                                                                   payload))]
    {
      var o := orders[orderId];
      var n := |o.events|;
      var sequence, previous := 1, None;
      if n > 0 {
        sequence, previous := o.events[n - 1].body.sequenceNo + 1, Some(o.events[n - 1].hash);
      }
      var body := EventBody(o.id, sequence, kind, from, to, actor, payload, previous);
      orders := orders[orderId := o.(events := o.events + [Event(body, env.hash(body))])];
    }

    method CreateMarketOrder(orderId: string, messageId: string, key: string, quantityKw: real,
                             allocation: seq<Allocation>, approved: bool, actor: string, decision: string, now: int)
      returns (r: Outcome<()>)
      modifies this
      ensures var step := CreateOrder(env, old(Snapshot()), orderId, messageId, key, quantityKw, allocation,
                                      approved, actor, decision, now);
              if step.Ok? then r.Ok? && Snapshot() == step.value
              else r == Err(step.error) && Snapshot() == old(Snapshot())
      ensures old(LedgerOk(env, Snapshot())) ==> LedgerOk(env, Snapshot())
    {
      hide LedgerOk, Append, KeyUsed, ClientIdUsed;
      if old(LedgerOk(env, Snapshot())) {
        CreateKeepsLedger(env, Snapshot(), orderId, messageId, key, quantityKw, allocation, approved, actor,
                          decision, now);
      }
      var clientId := env.clientOrderId(key);
      if quantityKw <= 0.0 {
        return Err(InvalidQuantity);
      }
      if orderId in orders {
        return Err(DuplicateKey);
      }
      if KeyUsed(Snapshot(), key) {
        return Ok(());
      }
      if ClientIdUsed(Snapshot(), clientId) {
        return Err(DuplicateKey);
      }
      if approved && messageId in outbox {
        return Err(DuplicateKey);
      }
      var status := if approved then Ready else RiskRejected;
      orders := orders[orderId :=
        Order(orderId, clientId, key, quantityKw, allocation, status, 0.0, None, None, None, [])];
      AppendOrderEvent(orderId, RiskDecision, Some(Draft), Mark.At(status), actor, decision);
      if status == Ready {
        outbox := outbox[messageId := Message(orderId, SUBMIT_TOPIC, Pending, 0, DEFAULT_MAX_ATTEMPTS, None, None,
                                              now)];
      }
      return Ok(());
    }

    method TransitionMarketOrder(orderId: string, target: Status, actor: string, payload: string,
                                 marketOrderId: Option<string>)
      returns (r: Outcome<Order>)
      modifies this`orders
      ensures var step := TransitionOrder(env, old(Snapshot()), orderId, target, actor, payload, marketOrderId);
              if step.Ok? then Snapshot() == step.value && orderId in orders && r == Ok(orders[orderId])
              else r == Err(step.error) && Snapshot() == old(Snapshot())
      ensures old(LedgerOk(env, Snapshot())) ==> LedgerOk(env, Snapshot())
    {
      hide LedgerOk, Transitions, Append, TransitionOrder;
      ghost var before := Snapshot();
      TransitionKeepsLedgerIf(env, before, orderId, target, actor, payload, marketOrderId);
      TransitionCases(env, before, orderId, target, actor, payload, marketOrderId);
      if orderId !in orders {
        return Err(UnknownOrder);
      }
      var current := orders[orderId];
      if target !in Transitions(current.status) {
        return Err(InvalidTransition);
      }
      var moved := Moved(current, target, marketOrderId);
      orders := orders[orderId := moved];
      AppendOrderEvent(orderId, StatusTransition, Some(current.status), Mark.At(target), actor, payload);
      WrittenTwice(before.orders, orderId, moved, orders[orderId]);
      return Ok(orders[orderId]);
    }

    method MarkOrderReconciled(orderId: string, outcome: Reconciliation, actor: string, payload: string)
      returns (r: Outcome<()>)
      modifies this`orders
      ensures var step := ReconcileOrder(env, old(Snapshot()), orderId, outcome, actor, payload);
              if step.Ok? then r.Ok? && Snapshot() == step.value
              else r == Err(step.error) && Snapshot() == old(Snapshot())
      ensures old(LedgerOk(env, Snapshot())) ==> LedgerOk(env, Snapshot())
    {
      hide LedgerOk, Append;
      ghost var before := Snapshot();
      NoteKeepsLedgerIf(env, before, orderId, outcome, actor, payload);
      if orderId !in orders {
        return Err(UnknownOrder);
      }
      var noted := orders[orderId].(reconciliation := Some(outcome));
      orders := orders[orderId := noted];
      AppendOrderEvent(orderId, ReconciliationNote, None, Reconciled(outcome), actor, payload);
      WrittenTwice(before.orders, orderId, noted, orders[orderId]);
      return Ok(());
    }

    /** The update half of the claim query, over the rows its select half picked. */
    method ClaimOutboxMessages(chosen: set<string>, worker: string, now: int, leaseSeconds: int)
      requires forall m :: m in chosen ==> m in outbox && Due(outbox[m], now)
      modifies this`outbox
      ensures Snapshot() == Claim(old(Snapshot()), chosen, worker, now, leaseSeconds)
      ensures old(LedgerOk(env, Snapshot())) ==> LedgerOk(env, Snapshot())
    {
      hide LedgerOk;
      ghost var before := Snapshot();
      var remaining := chosen;
      while remaining != {}
        invariant remaining <= chosen
        invariant outbox == Claim(before, chosen - remaining, worker, now, leaseSeconds).outbox
        decreases remaining
      {
        var m :| m in remaining;
        remaining := remaining - {m};
        outbox := outbox[m := outbox[m].(status := Publishing, attempts := outbox[m].attempts + 1,
                                         lockedBy := Some(worker), leaseExpiresAt := Some(now + leaseSeconds))];
      }
      if LedgerOk(env, before) { OutboxLeavesLedger(env, before, outbox); }
    }

    method FinishOutboxMessage(messageId: string, worker: string, published: bool, now: int, retryDelay: int)
      returns (r: Outcome<Message>)
      modifies this`outbox
      ensures var step := Finish(old(Snapshot()), messageId, worker, published, now, retryDelay);
              if step.Ok? then Snapshot() == step.value && messageId in outbox && r == Ok(outbox[messageId])
              else r == Err(step.error) && Snapshot() == old(Snapshot())
      ensures old(LedgerOk(env, Snapshot())) ==> LedgerOk(env, Snapshot())
    {
      hide LedgerOk;
      ghost var before := Snapshot();
      if messageId !in outbox {
        return Err(UnknownMessage);
      }
      var current := outbox[messageId];
      if current.lockedBy != Some(worker) {
        return Err(LeaseLost);
      }
      var next := RetryLater;
      if published {
        next := Published;
      } else if current.attempts >= current.maxAttempts {
        next := DeadLetter;
      }
      var available := current.availableAt;
      if next == RetryLater {
        available := now + retryDelay;
      }
      outbox := outbox[messageId := current.(status := next, availableAt := available, lockedBy := None,
                                             leaseExpiresAt := None)];
      if LedgerOk(env, before) { OutboxLeavesLedger(env, before, outbox); }
      return Ok(outbox[messageId]);
    }

    /** Delivery schedules of one trade, one per allocated station. */
    method ScheduleDelivery(tradeId: string, o: Order, scale: real)
      modifies this`schedules
      ensures schedules == Scheduled(old(schedules), tradeId, o, scale, |o.allocation|)
    {
      for i := 0 to |o.allocation|
        invariant schedules == Scheduled(old(schedules), tradeId, o, scale, i)
      {
        var a := o.allocation[i];
        var targetKw := Mul(a.targetKw, scale);
        if !ScheduleExists(schedules, tradeId, a.stationId) {
          schedules := schedules +
            [Schedule(tradeId, o.id, a.stationId, a.baselineKw, targetKw, Max(0.0, a.baselineKw - targetKw))];
        }
      }
    }

    method RecordTradeFill(tradeId: string, orderId: string, marketTradeId: string, quantityKw: real, pricePerKwh: real,
                           actor: string, payload: string)
      returns (r: Outcome<bool>)
      modifies this
      ensures var step := RecordFill(env, old(Snapshot()), tradeId, orderId, marketTradeId, quantityKw, pricePerKwh,
                                     actor, payload);
              if step.Ok? then Snapshot() == step.value && r == Ok(old(TradeRecorded(Snapshot(), marketTradeId)))
              else r == Err(step.error) && Snapshot() == old(Snapshot())
      ensures old(LedgerOk(env, Snapshot())) ==> LedgerOk(env, Snapshot())
    {
      hide LedgerOk, FilledOrder, Scheduled;
      if old(LedgerOk(env, Snapshot())) {
        FillKeepsLedger(env, Snapshot(), tradeId, orderId, marketTradeId, quantityKw, pricePerKwh, actor, payload);
      }
      if orderId !in orders {
        return Err(UnknownOrder);
      }
      var order := orders[orderId];
      if order.status != Submitted && order.status != PartiallyFilled {
        return Err(NotFillable);
      }
      var fill := Min(quantityKw, order.quantityKw - order.filledKw);
      if fill <= 0.0 {
        return Err(NothingToFill);
      }
      if TradeRecorded(Snapshot(), marketTradeId) {
        return Ok(true);
      }
      if TradeIdUsed(Snapshot(), tradeId) {
        return Err(DuplicateKey);
      }
      if pricePerKwh < 0.0 {
        return Err(NegativePrice);
      }
      if order.quantityKw == 0.0 || order.filledKw + fill == 0.0 {
        return Err(ZeroDivision);
      }
      ApplyFill(tradeId, orderId, order, marketTradeId, fill, pricePerKwh, actor, payload);
      return Ok(false);
    }

    /** The writes of a fill that is going to be recorded. */
    method ApplyFill(tradeId: string, orderId: string, order: Order, marketTradeId: string, fill: real,
                     pricePerKwh: real, actor: string, payload: string)
      requires orderId in orders && orders[orderId] == order && order.quantityKw != 0.0 && order.filledKw + fill != 0.0
      modifies this
      ensures outbox == old(outbox)
      ensures trades == old(trades) + [Trade(tradeId, orderId, marketTradeId, fill, pricePerKwh)]
      ensures orders == old(orders)[orderId := FilledOrder(env.hash, order, fill, pricePerKwh, actor, payload)]
      ensures schedules == Scheduled(old(schedules), tradeId, order, fill / order.quantityKw, |order.allocation|)
    {
      hide Append, Scheduled, Mul;
      trades := trades + [Trade(tradeId, orderId, marketTradeId, fill, pricePerKwh)];
      var newFilled := order.filledKw + fill;
      var average := if order.averagePrice.Some? then order.averagePrice.value else 0.0;
      var weightedPrice := (Mul(average, order.filledKw) + Mul(pricePerKwh, fill)) / newFilled;
      var target := PartiallyFilled;
      if newFilled >= order.quantityKw - FULL_FILL_SLACK {
        target := Filled;
      }
      orders := orders[orderId := order.(filledKw := newFilled, averagePrice := Some(weightedPrice), status := target)];
      ScheduleDelivery(tradeId, order, fill / order.quantityKw);
      AppendOrderEvent(orderId, TradeFill, Some(order.status), Mark.At(target), actor, payload);
    }
  }
}
