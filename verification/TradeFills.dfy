/** Conservation from trades to order totals to delivery schedules, over every fill. */
module TradeFills {
  import opened RealMath
  import opened Rounding
  import opened OrderLedger
  import opened TradingDb
  import opened Wrappers

  // ---------------------------------------------------------------------------------------
  // Totals over the recorded rows
  // ---------------------------------------------------------------------------------------

  /** Recorded quantity of one order among the first k trades. */
  function Traded(trades: seq<Trade>, orderId: string, k: nat): real
    requires k <= |trades|
  {
    if k == 0 then 0.0
    else Traded(trades, orderId, k - 1) + (if trades[k - 1].orderId == orderId then trades[k - 1].quantityKw else 0.0)
  }

  /** Recorded price times quantity of one order among the first k trades. */
  function TradedValue(trades: seq<Trade>, orderId: string, k: nat): real
    requires k <= |trades|
  {
    if k == 0 then 0.0
    else
      var t := trades[k - 1];
      TradedValue(trades, orderId, k - 1) + (if t.orderId == orderId then Mul(t.pricePerKwh, t.quantityKw) else 0.0)
  }

  /** Adjustment scheduled for one order at one station among the first k schedules. */
  function StationScheduled(s: seq<Schedule>, orderId: string, stationId: string, k: nat): real
    requires k <= |s|
  {
    if k == 0 then 0.0
    else StationScheduled(s, orderId, stationId, k - 1) +
         (if s[k - 1].orderId == orderId && s[k - 1].stationId == stationId then s[k - 1].adjustmentKw else 0.0)
  }

  /** Adjustment scheduled for one order at all stations among the first k schedules. */
  function OrderScheduled(s: seq<Schedule>, orderId: string, k: nat): real
    requires k <= |s|
  {
    if k == 0 then 0.0
    else OrderScheduled(s, orderId, k - 1) + (if s[k - 1].orderId == orderId then s[k - 1].adjustmentKw else 0.0)
  }

  /** Recorded trades of one order among the first k. */
  function Fills(trades: seq<Trade>, orderId: string, k: nat): nat
    requires k <= |trades|
  {
    if k == 0 then 0 else Fills(trades, orderId, k - 1) + (if trades[k - 1].orderId == orderId then 1 else 0)
  }

  /** Dispatch commands sent to one station for one order among the first k schedules, one per schedule. */
  function Commands(s: seq<Schedule>, orderId: string, stationId: string, k: nat): nat
    requires k <= |s|
  {
    if k == 0 then 0
    else Commands(s, orderId, stationId, k - 1) +
         (if s[k - 1].orderId == orderId && s[k - 1].stationId == stationId then 1 else 0)
  }

  /** What those commands ask for: each adjustment rounded to three decimals. */
  function StationDispatched(s: seq<Schedule>, orderId: string, stationId: string, k: nat): real
    requires k <= |s|
  {
    if k == 0 then 0.0
    else StationDispatched(s, orderId, stationId, k - 1) +
         (if s[k - 1].orderId == orderId && s[k - 1].stationId == stationId
          then Rounded(s[k - 1].adjustmentKw, THOUSANDTHS) else 0.0)
  }

  /** Dispatch commands sent for one order among the first k schedules. */
  function OrderCommands(s: seq<Schedule>, orderId: string, k: nat): nat
    requires k <= |s|
  {
    if k == 0 then 0 else OrderCommands(s, orderId, k - 1) + (if s[k - 1].orderId == orderId then 1 else 0)
  }

  /** What they ask for together. */
  function OrderDispatched(s: seq<Schedule>, orderId: string, k: nat): real
    requires k <= |s|
  {
    if k == 0 then 0.0
    else OrderDispatched(s, orderId, k - 1) +
         (if s[k - 1].orderId == orderId then Rounded(s[k - 1].adjustmentKw, THOUSANDTHS) else 0.0)
  }

  predicate Allocated(a: seq<Allocation>, stationId: string, k: nat)
    requires k <= |a|
  {
    exists i :: 0 <= i < k && a[i].stationId == stationId
  }

  /** Target of a station: the first allocation that names it. */
  function TargetAt(a: seq<Allocation>, stationId: string, k: nat): real
    requires k <= |a|
  {
    if k == 0 then 0.0
    else if a[k - 1].stationId == stationId && !Allocated(a, stationId, k - 1) then a[k - 1].targetKw
    else TargetAt(a, stationId, k - 1)
  }

  /** Sum of the targets of the first k allocations, each station once. */
  function TargetSum(a: seq<Allocation>, k: nat): real
    requires k <= |a|
  {
    if k == 0 then 0.0
    else TargetSum(a, k - 1) + (if Allocated(a, a[k - 1].stationId, k - 1) then 0.0 else a[k - 1].targetKw)
  }

  // ---------------------------------------------------------------------------------------
  // The invariant
  // ---------------------------------------------------------------------------------------

  /** Order totals agree with the recorded trades, and the schedules with the totals. */
  ghost predicate OrderBalanced(db: Db, id: string)
    requires id in db.orders
  {
    var o := db.orders[id];
    && o.id == id
    && 0.0 <= o.filledKw <= o.quantityKw && 0.0 < o.quantityKw
    && o.filledKw == Traded(db.trades, id, |db.trades|)
    && Mul(PriceOf(o), o.filledKw) == TradedValue(db.trades, id, |db.trades|)
    && (forall s :: StationBalanced(db, o, s))
    && Mul(OrderScheduled(db.schedules, id, |db.schedules|), o.quantityKw) ==
       Mul(TargetSum(o.allocation, |o.allocation|), o.filledKw)
    && OrderCommands(db.schedules, id, |db.schedules|) <= AtMost(|o.allocation|, Fills(db.trades, id, |db.trades|))
  }

  /** So many commands for each of the fills. */
  function AtMost(each: nat, fills: nat): nat { each * fills }

  lemma AtMostGrows(each: nat, fills: nat)
    ensures AtMost(each, fills + 1) == AtMost(each, fills) + each
  {}

  /** Everything scheduled at one station for the order is its target times filled over quantity, in at
      most one command per fill. */
  ghost predicate StationBalanced(db: Db, o: Order, s: string) {
    && Mul(StationScheduled(db.schedules, o.id, s, |db.schedules|), o.quantityKw) ==
       Mul(TargetAt(o.allocation, s, |o.allocation|), o.filledKw)
    && Commands(db.schedules, o.id, s, |db.schedules|) <= Fills(db.trades, o.id, |db.trades|)
  }

  ghost predicate TradesOnce(trades: seq<Trade>) {
    forall i, j :: 0 <= i < j < |trades| ==>
        trades[i].marketTradeId != trades[j].marketTradeId && trades[i].id != trades[j].id
  }

  ghost predicate Balanced(db: Db) {
    && (forall id :: id in db.orders ==> OrderBalanced(db, id))
    && (forall i :: 0 <= i < |db.trades| ==> db.trades[i].orderId in db.orders && db.trades[i].quantityKw > 0.0)
    && (forall i :: 0 <= i < |db.schedules| ==>
        db.schedules[i].orderId in db.orders && TradeIdUsed(db, db.schedules[i].tradeId))
    && TradesOnce(db.trades)
  }

  // ---------------------------------------------------------------------------------------
  // Appending a trade
  // ---------------------------------------------------------------------------------------

  lemma {:induction false} TradedPrefix(a: seq<Trade>, b: seq<Trade>, orderId: string, k: nat)
    requires a <= b && k <= |a|
    ensures Traded(a, orderId, k) == Traded(b, orderId, k)
    ensures TradedValue(a, orderId, k) == TradedValue(b, orderId, k)
    ensures Fills(a, orderId, k) == Fills(b, orderId, k)
  {
    if k > 0 { TradedPrefix(a, b, orderId, k - 1); }
  }

  lemma TradedSnoc(trades: seq<Trade>, t: Trade, orderId: string)
    ensures var u := trades + [t];
            && Traded(u, orderId, |u|) ==
                Traded(trades, orderId, |trades|) + (if t.orderId == orderId then t.quantityKw else 0.0)
            && TradedValue(u, orderId, |u|) ==
                 TradedValue(trades, orderId, |trades|) + (if t.orderId == orderId
                                                           then Mul(t.pricePerKwh, t.quantityKw) else 0.0)
            && Fills(u, orderId, |u|) == Fills(trades, orderId, |trades|) + (if t.orderId == orderId then 1 else 0)
  {
    TradedPrefix(trades, trades + [t], orderId, |trades|);
  }

  lemma {:induction false} NotTraded(trades: seq<Trade>, orderId: string, k: nat)
    requires k <= |trades| && forall i :: 0 <= i < k ==> trades[i].orderId != orderId
    ensures Traded(trades, orderId, k) == 0.0 && TradedValue(trades, orderId, k) == 0.0
  {
    if k > 0 { NotTraded(trades, orderId, k - 1); }
  }

  // ---------------------------------------------------------------------------------------
  // Appending schedules
  // ---------------------------------------------------------------------------------------

  lemma {:induction false} ScheduledPrefix(a: seq<Schedule>, b: seq<Schedule>, orderId: string, s: string, k: nat)
    requires a <= b && k <= |a|
    ensures StationScheduled(a, orderId, s, k) == StationScheduled(b, orderId, s, k)
    ensures OrderScheduled(a, orderId, k) == OrderScheduled(b, orderId, k)
    ensures Commands(a, orderId, s, k) == Commands(b, orderId, s, k)
    ensures OrderCommands(a, orderId, k) == OrderCommands(b, orderId, k)
  {
    if k > 0 { ScheduledPrefix(a, b, orderId, s, k - 1); }
  }

  lemma ScheduledSnoc(a: seq<Schedule>, x: Schedule, orderId: string, s: string)
    ensures var b := a + [x];
            && StationScheduled(b, orderId, s, |b|) ==
                 StationScheduled(a, orderId, s, |a|) +
                 (if x.orderId == orderId && x.stationId == s then x.adjustmentKw else 0.0)
            && OrderScheduled(b, orderId, |b|) ==
                 OrderScheduled(a, orderId, |a|) + (if x.orderId == orderId then x.adjustmentKw else 0.0)
            && Commands(b, orderId, s, |b|) ==
                 Commands(a, orderId, s, |a|) + (if x.orderId == orderId && x.stationId == s then 1 else 0)
            && OrderCommands(b, orderId, |b|) ==
                 OrderCommands(a, orderId, |a|) + (if x.orderId == orderId then 1 else 0)
  {
    ScheduledPrefix(a, a + [x], orderId, s, |a|);
  }

  lemma {:induction false} NotScheduled(a: seq<Schedule>, orderId: string, s: string, k: nat)
    requires k <= |a| && forall i :: 0 <= i < k ==> a[i].orderId != orderId
    ensures StationScheduled(a, orderId, s, k) == 0.0 && OrderScheduled(a, orderId, k) == 0.0
    ensures Commands(a, orderId, s, k) == 0 && OrderCommands(a, orderId, k) == 0
  {
    if k > 0 { NotScheduled(a, orderId, s, k - 1); }
  }

  /** With a fresh trade id, a schedule exists for exactly the stations allocated so far. */
  lemma {:induction false} ScheduledStations(schedules: seq<Schedule>, tradeId: string, o: Order, scale: real,
                                             k: nat, s: string)
    requires k <= |o.allocation| && !ScheduleExists(schedules, tradeId, s)
    ensures ScheduleExists(Scheduled(schedules, tradeId, o, scale, k), tradeId, s) <==> Allocated(o.allocation, s, k)
  {
    if k > 0 {
      ScheduledStations(schedules, tradeId, o, scale, k - 1, s);
      var before, after := Scheduled(schedules, tradeId, o, scale, k - 1), Scheduled(schedules, tradeId, o, scale, k);
      assert forall i :: 0 <= i < |before| ==> after[i] == before[i];
      if o.allocation[k - 1].stationId == s {
        assert Allocated(o.allocation, s, k);
        if !ScheduleExists(before, tradeId, s) {
          assert after[|before|].tradeId == tradeId && after[|before|].stationId == s;
        }
      }
    }
  }

  /** Scheduling a fill adds target times scale at each station, and their sum to the order. */
  lemma {:induction false} ScheduledAdds(schedules: seq<Schedule>, tradeId: string, o: Order, scale: real, k: nat,
                                         s: string)
    requires k <= |o.allocation| && forall i :: 0 <= i < |schedules| ==> schedules[i].tradeId != tradeId
    ensures var after := Scheduled(schedules, tradeId, o, scale, k);
            && schedules <= after
            && StationScheduled(after, o.id, s, |after|) ==
                 StationScheduled(schedules, o.id, s, |schedules|) + Mul(TargetAt(o.allocation, s, k), scale)
            && OrderScheduled(after, o.id, |after|) ==
                 OrderScheduled(schedules, o.id, |schedules|) + Mul(TargetSum(o.allocation, k), scale)
            && Commands(after, o.id, s, |after|) ==
                 Commands(schedules, o.id, s, |schedules|) + (if Allocated(o.allocation, s, k) then 1 else 0)
            && OrderCommands(after, o.id, |after|) <= OrderCommands(schedules, o.id, |schedules|) + k
  {
    hide Mul, StationScheduled, OrderScheduled, OrderCommands, Commands;
    if k == 0 {
      MulZero(scale);
    } else {
      ScheduledAdds(schedules, tradeId, o, scale, k - 1, s);
      var before := Scheduled(schedules, tradeId, o, scale, k - 1);
      var a := o.allocation[k - 1];
      ScheduledStations(schedules, tradeId, o, scale, k - 1, a.stationId);
      MulSum(scale, TargetSum(o.allocation, k - 1), a.targetKw);
      if !Allocated(o.allocation, a.stationId, k - 1) {
        var x := Schedule(tradeId, o.id, a.stationId, a.baselineKw, Mul(a.targetKw, scale),
                          Max(0.0, a.baselineKw - Mul(a.targetKw, scale)));
        ScheduledSnoc(before, x, o.id, s);
        NoTargetYet(o.allocation, a.stationId, k - 1);
        MulZero(scale);
      }
    }
  }

  lemma {:induction false} NoTargetYet(a: seq<Allocation>, s: string, k: nat)
    requires k <= |a| && !Allocated(a, s, k)
    ensures TargetAt(a, s, k) == 0.0
  {
    if k > 0 {
      assert a[k - 1].stationId != s;
      assert !Allocated(a, s, k - 1);
      NoTargetYet(a, s, k - 1);
    }
  }

  /** Schedules of other orders are not touched, and every new schedule carries the new trade id. */
  lemma {:induction false} ScheduledElsewhere(schedules: seq<Schedule>, tradeId: string, o: Order, scale: real, k: nat,
                                              other: string, s: string)
    requires k <= |o.allocation| && other != o.id
    ensures var after := Scheduled(schedules, tradeId, o, scale, k);
            && StationScheduled(after, other, s, |after|) == StationScheduled(schedules, other, s, |schedules|)
            && OrderScheduled(after, other, |after|) == OrderScheduled(schedules, other, |schedules|)
            && Commands(after, other, s, |after|) == Commands(schedules, other, s, |schedules|)
            && OrderCommands(after, other, |after|) == OrderCommands(schedules, other, |schedules|)
  {
    hide StationScheduled, OrderScheduled, OrderCommands, Commands, Mul;
    if k > 0 {
      ScheduledElsewhere(schedules, tradeId, o, scale, k - 1, other, s);
      var before := Scheduled(schedules, tradeId, o, scale, k - 1);
      var a := o.allocation[k - 1];
      ScheduledSnoc(before, Schedule(tradeId, o.id, a.stationId, a.baselineKw, Mul(a.targetKw, scale),
                                     Max(0.0, a.baselineKw - Mul(a.targetKw, scale))), other, s);
    }
  }

  lemma {:induction false} ScheduledOwners(schedules: seq<Schedule>, tradeId: string, o: Order, scale: real, k: nat)
    requires k <= |o.allocation|
    ensures var after := Scheduled(schedules, tradeId, o, scale, k);
            schedules <= after &&
            forall i :: |schedules| <= i < |after| ==> after[i].tradeId == tradeId && after[i].orderId == o.id
  {
    if k > 0 { ScheduledOwners(schedules, tradeId, o, scale, k - 1); }
  }

  // ---------------------------------------------------------------------------------------
  // The fill keeps the invariant
  // ---------------------------------------------------------------------------------------

  /** Adding target * scale to a balanced sum balances it against the larger fill. */
  lemma BalanceGrows(sum: real, target: real, scale: real, quantity: real, filled: real, fill: real)
    requires Mul(sum, quantity) == Mul(target, filled) && Mul(scale, quantity) == fill
    ensures Mul(sum + Mul(target, scale), quantity) == Mul(target, filled + fill)
  {
    hide Mul;
    MulSum(quantity, sum, Mul(target, scale));
    MulAssociative(target, scale, quantity);
    MulSum(target, filled, fill);
  }

  /** The filled order's own totals after a fill. */
  lemma FillBalancesTotals(h: Hasher, o: Order, trades: seq<Trade>, t: Trade, actor: string, payload: string)
    requires o.filledKw == Traded(trades, o.id, |trades|)
    requires Mul(PriceOf(o), o.filledKw) == TradedValue(trades, o.id, |trades|)
    requires t.orderId == o.id && t.quantityKw > 0.0 && o.filledKw >= 0.0
    ensures var r := FilledOrder(h, o, t.quantityKw, t.pricePerKwh, actor, payload);
            var u := trades + [t];
            && r.filledKw == Traded(u, o.id, |u|)
            && Mul(PriceOf(r), r.filledKw) == TradedValue(u, o.id, |u|)
  {
    hide Mul, Append, Fills;
    TradedSnoc(trades, t, o.id);
    MulQuotient(Mul(PriceOf(o), o.filledKw) + Mul(t.pricePerKwh, t.quantityKw), o.filledKw + t.quantityKw);
  }

  lemma FillBalancesSchedules(db: Db, o: Order, fill: real, tradeId: string, s: string)
    requires o.quantityKw != 0.0 && forall i :: 0 <= i < |db.schedules| ==> db.schedules[i].tradeId != tradeId
    requires StationBalanced(db, o, s)
    requires Mul(OrderScheduled(db.schedules, o.id, |db.schedules|), o.quantityKw) ==
             Mul(TargetSum(o.allocation, |o.allocation|), o.filledKw)
    ensures var after := Scheduled(db.schedules, tradeId, o, fill / o.quantityKw, |o.allocation|);
            && Mul(StationScheduled(after, o.id, s, |after|), o.quantityKw) ==
                 Mul(TargetAt(o.allocation, s, |o.allocation|), o.filledKw + fill)
            && Mul(OrderScheduled(after, o.id, |after|), o.quantityKw) ==
                 Mul(TargetSum(o.allocation, |o.allocation|), o.filledKw + fill)
            && Commands(after, o.id, s, |after|) <= Commands(db.schedules, o.id, s, |db.schedules|) + 1
            && OrderCommands(after, o.id, |after|) <=
               OrderCommands(db.schedules, o.id, |db.schedules|) + |o.allocation|
  {
    hide Mul, StationScheduled, OrderScheduled, OrderCommands, Commands, TargetAt, TargetSum, Scheduled;
    var scale := fill / o.quantityKw;
    ScheduledAdds(db.schedules, tradeId, o, scale, |o.allocation|, s);
    MulQuotient(fill, o.quantityKw);
    BalanceGrows(StationScheduled(db.schedules, o.id, s, |db.schedules|), TargetAt(o.allocation, s, |o.allocation|),
                 scale, o.quantityKw, o.filledKw, fill);
    BalanceGrows(OrderScheduled(db.schedules, o.id, |db.schedules|), TargetSum(o.allocation, |o.allocation|),
                 scale, o.quantityKw, o.filledKw, fill);
  }

  /** A successful, non-duplicate fill keeps every order balanced. */
  lemma RecordFillBalances(env: Env, db: Db, tradeId: string, orderId: string, marketTradeId: string,
                           quantityKw: real, pricePerKwh: real, actor: string, payload: string)
    requires Balanced(db)
    requires RecordFill(env, db, tradeId, orderId, marketTradeId, quantityKw, pricePerKwh, actor, payload).Ok?
    ensures Balanced(RecordFill(env, db, tradeId, orderId, marketTradeId, quantityKw, pricePerKwh, actor,
                                payload).value)
  {
    hide Mul, Scheduled, Append, Traded, TradedValue, Fills, StationScheduled, OrderScheduled, OrderCommands,
      Commands, TargetAt, TargetSum, FillOf, AtMost;
    if !TradeRecorded(db, marketTradeId) {
      var o := db.orders[orderId];
      assert OrderBalanced(db, orderId);
      var fill := FillOf(o, quantityKw);
      var t := Trade(tradeId, orderId, marketTradeId, fill, pricePerKwh);
      var after := RecordFill(env, db, tradeId, orderId, marketTradeId, quantityKw, pricePerKwh, actor, payload).value;
      FillWithin(o, quantityKw);
      FillBalancesTotals(env.hash, o, db.trades, t, actor, payload);
      FreshSchedules(db, tradeId);
      TradedSnoc(db.trades, t, orderId);
      AtMostGrows(|o.allocation|, Fills(db.trades, orderId, |db.trades|));
      forall s ensures StationBalanced(after, after.orders[orderId], s) {
        assert StationBalanced(db, o, s);
        FillBalancesSchedules(db, o, fill, tradeId, s);
      }
      assert StationBalanced(db, o, "");
      FillBalancesSchedules(db, o, fill, tradeId, "");
      assert OrderBalanced(after, orderId);
      forall id | id in after.orders && id != orderId ensures OrderBalanced(after, id) {
        assert OrderBalanced(db, id);
        OthersBalanced(db, after, t, o, fill, id);
      }
      OwnersKept(db, after, t, o, fill);
    }
  }

  lemma FillWithin(o: Order, quantityKw: real)
    requires FillOf(o, quantityKw) > 0.0
    ensures o.filledKw + FillOf(o, quantityKw) <= o.quantityKw
  {}

  lemma FreshSchedules(db: Db, tradeId: string)
    requires Balanced(db) && !TradeIdUsed(db, tradeId)
    ensures forall i :: 0 <= i < |db.schedules| ==> db.schedules[i].tradeId != tradeId
  {
    hide OrderBalanced;
  }

  lemma OthersBalanced(db: Db, after: Db, t: Trade, o: Order, fill: real, id: string)
    requires id in db.orders && id in after.orders && after.orders[id] == db.orders[id] && OrderBalanced(db, id)
    requires t.orderId == o.id && id != o.id && o.quantityKw != 0.0
    requires after.trades == db.trades + [t]
    requires after.schedules == Scheduled(db.schedules, t.id, o, fill / o.quantityKw, |o.allocation|)
    ensures OrderBalanced(after, id)
  {
    hide Mul, Scheduled, Traded, TradedValue, Fills, StationScheduled, OrderScheduled, OrderCommands, Commands,
      TargetAt, TargetSum, AtMost;
    TradedSnoc(db.trades, t, id);
    forall s ensures StationBalanced(after, after.orders[id], s) {
      assert StationBalanced(db, db.orders[id], s);
      ScheduledElsewhere(db.schedules, t.id, o, fill / o.quantityKw, |o.allocation|, id, s);
    }
    ScheduledElsewhere(db.schedules, t.id, o, fill / o.quantityKw, |o.allocation|, id, "");
  }

  lemma OwnersKept(db: Db, after: Db, t: Trade, o: Order, fill: real)
    requires Balanced(db) && o.id in db.orders && t.orderId == o.id && t.quantityKw > 0.0 && o.quantityKw != 0.0
    requires !TradeRecorded(db, t.marketTradeId) && !TradeIdUsed(db, t.id)
    requires after.orders.Keys == db.orders.Keys && after.trades == db.trades + [t]
    requires after.schedules == Scheduled(db.schedules, t.id, o, fill / o.quantityKw, |o.allocation|)
    ensures TradesOnce(after.trades)
    ensures forall i :: 0 <= i < |after.trades| ==>
            after.trades[i].orderId in after.orders && after.trades[i].quantityKw > 0.0
    ensures forall i :: 0 <= i < |after.schedules| ==>
              after.schedules[i].orderId in after.orders && TradeIdUsed(after, after.schedules[i].tradeId)
  {
    hide OrderBalanced, Scheduled;
    ScheduledOwners(db.schedules, t.id, o, fill / o.quantityKw, |o.allocation|);
    assert after.trades[|db.trades|] == t;
    forall i | 0 <= i < |after.schedules| ensures TradeIdUsed(after, after.schedules[i].tradeId) {
      if i < |db.schedules| {
        assert after.schedules[i] == db.schedules[i] && TradeIdUsed(db, db.schedules[i].tradeId);
        var j :| 0 <= j < |db.trades| && db.trades[j].id == db.schedules[i].tradeId;
        assert after.trades[j].id == db.schedules[i].tradeId;
      } else {
        assert after.trades[|db.trades|].id == after.schedules[i].tradeId;
      }
    }
  }

  // ---------------------------------------------------------------------------------------
  // The other transactions keep it too
  // ---------------------------------------------------------------------------------------

  /** Replacing an order's status, log and identifiers does not touch its balance. */
  lemma RelabelKeepsBalance(db: Db, id: string, o: Order)
    requires Balanced(db) && id in db.orders
    requires o == db.orders[id].(status := o.status, events := o.events, marketOrderId := o.marketOrderId,
                                 reconciliation := o.reconciliation)
    ensures Balanced(db.(orders := db.orders[id := o]))
  {
    hide Mul, Traded, TradedValue, Fills, StationScheduled, OrderScheduled, OrderCommands, Commands, TargetAt,
      TargetSum, AtMost;
    var after := db.(orders := db.orders[id := o]);
    forall k | k in after.orders ensures OrderBalanced(after, k) {
      assert OrderBalanced(db, k);
      forall s ensures StationBalanced(after, after.orders[k], s) {
        assert StationBalanced(db, db.orders[k], s);
      }
    }
    UsesKept(db, after);
  }

  lemma UsesKept(db: Db, after: Db)
    requires Balanced(db) && db.orders.Keys <= after.orders.Keys
    requires after.trades == db.trades && after.schedules == db.schedules
    ensures forall i :: 0 <= i < |after.trades| ==>
            after.trades[i].orderId in after.orders && after.trades[i].quantityKw > 0.0
    ensures forall i :: 0 <= i < |after.schedules| ==>
              after.schedules[i].orderId in after.orders && TradeIdUsed(after, after.schedules[i].tradeId)
  {
    hide OrderBalanced;
    forall i | 0 <= i < |after.schedules| ensures TradeIdUsed(after, after.schedules[i].tradeId) {
      assert TradeIdUsed(db, db.schedules[i].tradeId);
    }
  }

  lemma CreateKeepsBalance(env: Env, db: Db, orderId: string, messageId: string, key: string, quantityKw: real,
                           allocation: seq<Allocation>, approved: bool, actor: string, decision: string, now: int)
    requires Balanced(db)
    requires CreateOrder(env, db, orderId, messageId, key, quantityKw, allocation, approved, actor, decision, now).Ok?
    ensures Balanced(CreateOrder(env, db, orderId, messageId, key, quantityKw, allocation, approved, actor, decision,
                                 now).value)
  {
    hide Mul, Traded, TradedValue, Fills, StationScheduled, OrderScheduled, OrderCommands, Commands, TargetAt,
      TargetSum, Append, AtMost;
    var after := CreateOrder(env, db, orderId, messageId, key, quantityKw, allocation, approved, actor, decision,
                             now).value;
    if after != db {
      forall k | k in after.orders ensures OrderBalanced(after, k) {
        var o := after.orders[k];
        if k == orderId {
          NotTraded(db.trades, k, |db.trades|);
          MulZero(PriceOf(o));
          MulZero(o.quantityKw);
          MulZero(TargetSum(o.allocation, |o.allocation|));
          forall s ensures StationBalanced(after, o, s) {
            NotScheduled(db.schedules, k, s, |db.schedules|);
            MulZero(TargetAt(o.allocation, s, |o.allocation|));
          }
          NotScheduled(db.schedules, k, "", |db.schedules|);
        } else {
          assert OrderBalanced(db, k);
          forall s ensures StationBalanced(after, o, s) { assert StationBalanced(db, o, s); }
        }
      }
      UsesKept(db, after);
    }
  }

  // ---------------------------------------------------------------------------------------
  // Consequences
  // ---------------------------------------------------------------------------------------

  /** Repeating a market trade id never changes the tables, whatever else the call says. */
  lemma RepeatedTradeChangesNothing(env: Env, db: Db, tradeId: string, orderId: string, marketTradeId: string,
                                    quantityKw: real, pricePerKwh: real, actor: string, payload: string)
    ensures TradeRecorded(db, marketTradeId) ==>
              var r := RecordFill(env, db, tradeId, orderId, marketTradeId, quantityKw, pricePerKwh, actor, payload);
              r.Err? || r.value == db
    ensures var r := RecordFill(env, db, tradeId, orderId, marketTradeId, quantityKw, pricePerKwh, actor, payload);
            r.Ok? ==> TradeRecorded(r.value, marketTradeId)
  {
    var r := RecordFill(env, db, tradeId, orderId, marketTradeId, quantityKw, pricePerKwh, actor, payload);
    if r.Ok? && !TradeRecorded(db, marketTradeId) {
      assert r.value.trades[|db.trades|].marketTradeId == marketTradeId;
    }
  }

  /** A new fill takes what is offered as far as the order has room, and counts the order as filled exactly
      when no more than a watt is missing. */
  lemma FillTakesAll(env: Env, db: Db, tradeId: string, orderId: string, marketTradeId: string, quantityKw: real,
                     pricePerKwh: real, actor: string, payload: string)
    requires orderId in db.orders && !TradeRecorded(db, marketTradeId)
    requires RecordFill(env, db, tradeId, orderId, marketTradeId, quantityKw, pricePerKwh, actor, payload).Ok?
    ensures var after := RecordFill(env, db, tradeId, orderId, marketTradeId, quantityKw, pricePerKwh, actor,
                                    payload).value;
            var before, o := db.orders[orderId], after.orders[orderId];
            var taken := o.filledKw - before.filledKw;
            && before.status in {Submitted, PartiallyFilled}
            && 0.0 < taken <= quantityKw && o.filledKw <= before.quantityKw
            && (taken == quantityKw || o.filledKw == before.quantityKw)
            && (o.status == Filled <==> before.quantityKw - o.filledKw <= 0.001)
            && (o.status == PartiallyFilled <==> before.quantityKw - o.filledKw > 0.001)
            && after.trades == db.trades + [Trade(tradeId, orderId, marketTradeId, taken, pricePerKwh)]
            && o == before.(filledKw := o.filledKw, averagePrice := o.averagePrice, status := o.status,
                            events := o.events)
  {
    hide Append, Mul, Scheduled;
  }

  /** All schedules of an order add up to its filled quantity exactly when its distinct stations'
      targets add up to the order quantity, or nothing is filled. */
  lemma SchedulesMatchFill(db: Db, id: string)
    requires id in db.orders && OrderBalanced(db, id)
    ensures var o := db.orders[id];
            OrderScheduled(db.schedules, id, |db.schedules|) == o.filledKw <==>
            o.filledKw == 0.0 || TargetSum(o.allocation, |o.allocation|) == o.quantityKw
  {
    hide Mul, OrderScheduled, TargetSum;
    var o := db.orders[id];
    var total, targets := OrderScheduled(db.schedules, id, |db.schedules|), TargetSum(o.allocation, |o.allocation|);
    MulCommutes(o.filledKw, o.quantityKw);
    MulZero(targets);
    if targets == o.quantityKw || o.filledKw == 0.0 { MulCancels(total, o.filledKw, o.quantityKw); }
    if total == o.filledKw && o.filledKw != 0.0 { MulCancels(targets, o.quantityKw, o.filledKw); }
    MulZero(o.quantityKw);
  }

  lemma {:induction false} DispatchedNear(s: seq<Schedule>, orderId: string, stationId: string, k: nat)
    requires k <= |s|
    ensures Abs(StationDispatched(s, orderId, stationId, k) - StationScheduled(s, orderId, stationId, k)) <=
            0.0005 * Commands(s, orderId, stationId, k) as real
  {
    hide Rounded;
    if k > 0 {
      DispatchedNear(s, orderId, stationId, k - 1);
      RoundedNear(s[k - 1].adjustmentKw, THOUSANDTHS);
    }
  }

  /** What the commands to one station ask for together is its target times filled over quantity, within
      half a watt per fill of the order. */
  lemma DispatchNearTarget(db: Db, id: string, stationId: string)
    requires id in db.orders && OrderBalanced(db, id)
    ensures var o := db.orders[id];
            Abs(StationDispatched(db.schedules, id, stationId, |db.schedules|) -
                Mul(TargetAt(o.allocation, stationId, |o.allocation|), o.filledKw / o.quantityKw)) <=
            0.0005 * Fills(db.trades, id, |db.trades|) as real
  {
    hide Mul, StationDispatched, StationScheduled, Commands, Fills, TargetAt;
    var o := db.orders[id];
    assert StationBalanced(db, o, stationId);
    DispatchedNear(db.schedules, id, stationId, |db.schedules|);
    var scheduled, target := StationScheduled(db.schedules, id, stationId, |db.schedules|),
        TargetAt(o.allocation, stationId, |o.allocation|);
    QuotientOfProduct(scheduled, o.quantityKw);
    QuotientMoves(target, o.filledKw, o.quantityKw);
  }

  lemma {:induction false} OrderDispatchedNear(s: seq<Schedule>, orderId: string, k: nat)
    requires k <= |s|
    ensures Abs(OrderDispatched(s, orderId, k) - OrderScheduled(s, orderId, k)) <=
            0.0005 * OrderCommands(s, orderId, k) as real
  {
    hide Rounded;
    if k > 0 {
      OrderDispatchedNear(s, orderId, k - 1);
      RoundedNear(s[k - 1].adjustmentKw, THOUSANDTHS);
    }
  }

  /** All commands for an order ask together for what its schedules add up to, within half a watt per
      station and fill. */
  lemma DispatchNearSchedules(db: Db, id: string)
    requires id in db.orders && OrderBalanced(db, id)
    ensures Abs(OrderDispatched(db.schedules, id, |db.schedules|) - OrderScheduled(db.schedules, id, |db.schedules|)) <=
            0.0005 * AtMost(|db.orders[id].allocation|, Fills(db.trades, id, |db.trades|)) as real
  {
    hide OrderDispatched, OrderScheduled, OrderCommands, Fills, AtMost, TargetSum, Traded, TradedValue, Mul;
    OrderDispatchedNear(db.schedules, id, |db.schedules|);
  }

  lemma MulCancels(a: real, b: real, d: real)
    requires d != 0.0
    ensures Mul(a, d) == Mul(b, d) ==> a == b
  {
    if Mul(a, d) == Mul(b, d) { assert (a - b) * d == 0.0; }
  }
}
