/** What holds of the trading tables in every run of the publishing protocol: event logs replay to the
    current status, totals balance, and nothing is published that the venue was never called for. */
module TradingRuns {
  import opened RealMath
  import opened OrderLedger
  import opened TradingDb
  import opened TradeFills
  import opened OutboxProtocol
  import opened Wrappers

  // ---------------------------------------------------------------------------------------
  // Event sourcing and balances
  // ---------------------------------------------------------------------------------------

  ghost predicate AllSourced(env: Env, db: Db) {
    forall id :: id in db.orders ==> db.orders[id].id == id && Sourced(env.hash, db.orders[id])
  }

  ghost predicate LedgerOk(env: Env, db: Db) { AllSourced(env, db) && Balanced(db) }

  lemma FillSourced(h: Hasher, o: Order, fill: real, pricePerKwh: real, actor: string, payload: string)
    requires Sourced(h, o) && o.status in {Submitted, PartiallyFilled} && o.filledKw + fill != 0.0
    ensures Sourced(h, FilledOrder(h, o, fill, pricePerKwh, actor, payload))
  {
    hide Mul;
    var target := FilledStatus(o, o.filledKw + fill);
    AppendKeepsChain(h, o.id, o.events, TradeFill, Some(o.status), Mark.At(target), actor, payload);
    AppendReplay(h, o.id, o.events, TradeFill, Some(o.status), Mark.At(target), actor, payload);
  }

  lemma TransitionKeepsLedger(env: Env, db: Db, orderId: string, target: Status, actor: string, payload: string,
                              marketOrderId: Option<string>)
    requires LedgerOk(env, db)
    ensures var r := TransitionOrder(env, db, orderId, target, actor, payload, marketOrderId);
            r.Ok? ==> LedgerOk(env, r.value)
  {
    hide Balanced, Sourced, Append;
    var r := TransitionOrder(env, db, orderId, target, actor, payload, marketOrderId);
    if r.Ok? {
      TransitionSourced(env.hash, db.orders[orderId], target, actor, payload, marketOrderId);
      RelabelKeepsBalance(db, orderId, r.value.orders[orderId]);
    }
  }

  lemma NoteKeepsLedger(env: Env, db: Db, orderId: string, outcome: Reconciliation, actor: string, payload: string)
    requires LedgerOk(env, db)
    ensures var r := ReconcileOrder(env, db, orderId, outcome, actor, payload);
            r.Ok? ==> LedgerOk(env, r.value)
  {
    hide Balanced, Sourced, Append;
    var r := ReconcileOrder(env, db, orderId, outcome, actor, payload);
    if r.Ok? {
      MarkReconciledSourced(env.hash, db.orders[orderId], outcome, actor, payload);
      RelabelKeepsBalance(db, orderId, r.value.orders[orderId]);
    }
  }

  lemma FillKeepsLedger(env: Env, db: Db, tradeId: string, orderId: string, marketTradeId: string, quantityKw: real,
                        pricePerKwh: real, actor: string, payload: string)
    requires LedgerOk(env, db)
    ensures var r := RecordFill(env, db, tradeId, orderId, marketTradeId, quantityKw, pricePerKwh, actor, payload);
            r.Ok? ==> LedgerOk(env, r.value)
  {
    hide Balanced, Sourced, FilledOrder, FillOf, Scheduled;
    var r := RecordFill(env, db, tradeId, orderId, marketTradeId, quantityKw, pricePerKwh, actor, payload);
    if r.Ok? {
      RecordFillBalances(env, db, tradeId, orderId, marketTradeId, quantityKw, pricePerKwh, actor, payload);
      if r.value != db {
        var fill := FillOf(db.orders[orderId], quantityKw);
        FillSourced(env.hash, db.orders[orderId], fill, pricePerKwh, actor, payload);
        FilledOrderKeepsId(env.hash, db.orders[orderId], fill, pricePerKwh, actor, payload);
      }
    }
  }

  lemma FilledOrderKeepsId(h: Hasher, o: Order, fill: real, pricePerKwh: real, actor: string, payload: string)
    requires o.filledKw + fill != 0.0
    ensures FilledOrder(h, o, fill, pricePerKwh, actor, payload).id == o.id
  {}

  lemma CreateKeepsLedger(env: Env, db: Db, orderId: string, messageId: string, key: string, quantityKw: real,
                          allocation: seq<Allocation>, approved: bool, actor: string, decision: string, now: int)
    requires LedgerOk(env, db)
    ensures var r := CreateOrder(env, db, orderId, messageId, key, quantityKw, allocation, approved, actor, decision,
                                 now);
            r.Ok? ==> LedgerOk(env, r.value)
  {
    hide Balanced, Sourced, Append;
    var r := CreateOrder(env, db, orderId, messageId, key, quantityKw, allocation, approved, actor, decision, now);
    if r.Ok? {
      CreateKeepsBalance(env, db, orderId, messageId, key, quantityKw, allocation, approved, actor, decision, now);
      NewOrderSourced(env.hash, orderId, env.clientOrderId(key), key, quantityKw, allocation, approved, actor,
                      decision);
    }
  }

  lemma OutboxLeavesLedger(env: Env, db: Db, outbox: map<string, Message>)
    requires LedgerOk(env, db)
    ensures LedgerOk(env, db.(outbox := outbox))
  {
    var after := db.(outbox := outbox);
    forall id | id in after.orders ensures OrderBalanced(after, id) {
      assert OrderBalanced(db, id);
      forall s ensures StationBalanced(after, after.orders[id], s) { assert StationBalanced(db, db.orders[id], s); }
    }
    UsesKept(db, after);
  }

  lemma LedgerStep(env: Env, w: World, a: Action)
    requires LedgerOk(env, w.db)
    ensures LedgerOk(env, Step(env, w, a).db)
  {
    hide LedgerOk, TransitionOrder, CreateOrder, RecordFill, ReconcileOrder;
    var db := w.db;
    match a {
      case Create(orderId, messageId, key, quantityKw, allocation, approved, actor, decision) =>
        CreateKeepsLedger(env, db, orderId, messageId, key, quantityKw, allocation, approved, actor, decision, w.now);
      case ClaimBatch(chosen, worker, leaseSeconds) =>
        if AllDue(db, chosen, w.now) {
          OutboxLeavesLedger(env, db, Claim(db, chosen, worker, w.now, leaseSeconds).outbox);
        }
      case Advance(t, payload) =>
        if Stands(w, t, Advancing) {
          TransitionKeepsLedger(env, db, MessageOf(w, t).orderId, Submitting, w.jobs[t].worker, payload, None);
        }
      case Record(t, payload, marketOrderId) =>
        if t in w.jobs && t.messageId in db.outbox && w.jobs[t].pc.Recording? {
          TransitionKeepsLedger(env, db, MessageOf(w, t).orderId, w.jobs[t].pc.target, w.jobs[t].worker, payload,
                                marketOrderId);
        }
      case FailOrder(t, payload) =>
        if Stands(w, t, MustFailOrder) {
          TransitionKeepsLedger(env, db, MessageOf(w, t).orderId, Failed, w.jobs[t].worker, payload, None);
        }
      case Publish(t, _) =>
        if Stands(w, t, MustPublish) { FinishLeavesLedger(env, w, t, true); }
      case Fail(t) =>
        if Stands(w, t, MustFail) { FinishLeavesLedger(env, w, t, false); }
      case Reconcile(orderId, remote, actor, payload, marketOrderId) =>
        TransitionKeepsLedger(env, db, orderId, remote, actor, payload, marketOrderId);
      case Note(orderId, outcome, actor, payload) => NoteKeepsLedger(env, db, orderId, outcome, actor, payload);
      case Fill(tradeId, orderId, marketTradeId, quantityKw, pricePerKwh, actor, payload) =>
        FillKeepsLedger(env, db, tradeId, orderId, marketTradeId, quantityKw, pricePerKwh, actor, payload);
      case _ =>
    }
  }

  lemma FinishLeavesLedger(env: Env, w: World, t: Ticket, published: bool)
    requires LedgerOk(env, w.db) && t in w.jobs
    ensures var r := Finish(w.db, t.messageId, w.jobs[t].worker, published, w.now, RETRY_DELAY);
            r.Ok? ==> LedgerOk(env, r.value)
  {
    hide LedgerOk;
    var r := Finish(w.db, t.messageId, w.jobs[t].worker, published, w.now, RETRY_DELAY);
    if r.Ok? { OutboxLeavesLedger(env, w.db, r.value.outbox); }
  }

  /** Main result: in every run, every order's log has gapless numbers and intact links, replays from
      draft along legal transitions to its current status, and the totals and schedules balance. */
  lemma {:induction false} RunLedger(env: Env, w: World, actions: seq<Action>, k: nat)
    requires Initial(w) && k <= |actions|
    ensures LedgerOk(env, Run(env, w, actions, k).db)
  {
    if k > 0 {
      RunLedger(env, w, actions, k - 1);
      LedgerStep(env, Run(env, w, actions, k - 1), actions[k - 1]);
    }
  }

  // ---------------------------------------------------------------------------------------
  // Published orders were really sent to the venue
  // ---------------------------------------------------------------------------------------

  /** Statuses that only the venue's word can lead to. */
  predicate VenueKnown(s: Status) {
    s in {Submitted, PartiallyFilled, Filled, CancelPending, Cancelled, Rejected, Expired}
  }

  /** Some worker has called the venue for this order. */
  ghost predicate CalledFor(w: World, orderId: string) {
    exists i :: 0 <= i < |w.calls| && CallIsFor(w, i, orderId)
  }

  ghost predicate CallIsFor(w: World, i: nat, orderId: string)
    requires i < |w.calls|
  {
    var m := w.calls[i].ticket.messageId;
    m in w.db.outbox && w.db.outbox[m].orderId == orderId
  }

  ghost predicate OrderEvident(w: World, id: string)
    requires id in w.db.orders
  {
    VenueKnown(w.db.orders[id].status) || w.db.orders[id].marketOrderId.Some? ==> CalledFor(w, id)
  }

  ghost predicate JobEvident(w: World, t: Ticket)
    requires t in w.jobs
  {
    var pc := w.jobs[t].pc;
    pc.Awaiting? || pc.Recording? || pc.MustPublish? ==>
      t.messageId in w.db.outbox && CalledFor(w, w.db.outbox[t.messageId].orderId)
  }

  ghost predicate Evident(w: World) {
    && (forall id :: id in w.db.orders ==> OrderEvident(w, id))
    && (forall t :: t in w.jobs ==> JobEvident(w, t))
    && (forall m :: m in w.db.outbox && w.db.outbox[m].status == Published ==> CalledFor(w, w.db.outbox[m].orderId))
  }

  lemma CalledForStays(w: World, v: World, orderId: string)
    requires w.calls <= v.calls && MessagesAdvance(w.db, v.db) && CalledFor(w, orderId)
    ensures CalledFor(v, orderId)
  {
    var i :| 0 <= i < |w.calls| && CallIsFor(w, i, orderId);
    assert v.calls[i] == w.calls[i];
    assert MessageAdvances(w.db, v.db, w.calls[i].ticket.messageId);
    assert CallIsFor(v, i, orderId);
  }

  /** What a step must not do on its own authority, row by row. */
  ghost predicate StepJustified(w: World, v: World) {
    && w.calls <= v.calls && MessagesAdvance(w.db, v.db)
    && (forall id :: id in v.db.orders ==> OrderJustified(w, v, id))
    && (forall t :: t in v.jobs ==> JobJustified(w, v, t))
    && (forall m :: m in v.db.outbox ==> MessageJustified(w, v, m))
  }

  ghost predicate OrderJustified(w: World, v: World, id: string)
    requires id in v.db.orders
  {
    var o := v.db.orders[id];
    VenueKnown(o.status) || o.marketOrderId.Some? ==>
      CalledFor(w, id) || (id in w.db.orders
                           && (VenueKnown(w.db.orders[id].status) || w.db.orders[id].marketOrderId.Some?))
  }

  ghost predicate JobJustified(w: World, v: World, t: Ticket)
    requires t in v.jobs
  {
    var pc := v.jobs[t].pc;
    pc.Awaiting? || pc.Recording? || pc.MustPublish? ==>
      || (t in w.jobs && (w.jobs[t].pc.Awaiting? || w.jobs[t].pc.Recording? || w.jobs[t].pc.MustPublish?))
      || (t.messageId in v.db.outbox && CalledFor(v, v.db.outbox[t.messageId].orderId))
      || (t.messageId in w.db.outbox && w.db.outbox[t.messageId].orderId in w.db.orders
          && VenueKnown(w.db.orders[w.db.outbox[t.messageId].orderId].status))
  }

  ghost predicate MessageJustified(w: World, v: World, m: string)
    requires m in v.db.outbox
  {
    v.db.outbox[m].status == Published ==>
      m in w.db.outbox && (w.db.outbox[m].status == Published || CalledFor(w, w.db.outbox[m].orderId))
  }

  lemma JustifiedKeepsEvidence(w: World, v: World)
    requires Evident(w) && StepJustified(w, v)
    ensures Evident(v)
  {
    hide CalledFor;
    forall id | id in v.db.orders ensures OrderEvident(v, id) {
      assert OrderJustified(w, v, id);
      if id in w.db.orders { assert OrderEvident(w, id); }
      if CalledFor(w, id) { CalledForStays(w, v, id); }
    }
    forall t | t in v.jobs ensures JobEvident(v, t) {
      assert JobJustified(w, v, t);
      if t in w.jobs { assert JobEvident(w, t); }
      if t.messageId in w.db.outbox {
        assert MessageAdvances(w.db, v.db, t.messageId);
        var id := w.db.outbox[t.messageId].orderId;
        if id in w.db.orders { assert OrderEvident(w, id); }
        if CalledFor(w, id) { CalledForStays(w, v, id); }
      }
    }
    forall m | m in v.db.outbox && v.db.outbox[m].status == Published ensures CalledFor(v, v.db.outbox[m].orderId) {
      assert MessageJustified(w, v, m) && MessageAdvances(w.db, v.db, m);
      CalledForStays(w, v, w.db.outbox[m].orderId);
    }
  }

  lemma JobMoveJustified(env: Env, w: World, a: Action)
    requires Inv(w) && Evident(w) && (a.Read? || a.Send? || a.Answer? || a.Raise? || a.Crash?)
    ensures StepJustified(w, Step(env, w, a))
  {
    hide Inv, CalledFor, JobOk, CallOk, MessageOk;
    var v := Step(env, w, a);
    StepKeeps(env, w, a);
    if a.Send? && v != w {
      KnownJob(w, a.t);
      assert v.calls == w.calls + [Call(a.t, w.jobs[a.t].clientOrderId)];
      assert CallIsFor(v, |w.calls|, w.db.outbox[a.t.messageId].orderId);
      SentIsCalled(v, |w.calls|, w.db.outbox[a.t.messageId].orderId);
    }
  }

  lemma SentIsCalled(v: World, i: nat, orderId: string)
    requires i < |v.calls| && CallIsFor(v, i, orderId)
    ensures CalledFor(v, orderId)
  {}

  lemma AdvanceJustified(env: Env, w: World, a: Action)
    requires Inv(w) && Evident(w) && a.Advance?
    ensures StepJustified(w, Step(env, w, a))
  {
    hide Inv, CalledFor, JobOk, CallOk, MessageOk, Append;
    StepKeeps(env, w, a);
  }

  lemma FailOrderJustified(env: Env, w: World, a: Action)
    requires Inv(w) && Evident(w) && a.FailOrder?
    ensures StepJustified(w, Step(env, w, a))
  {
    hide Inv, CalledFor, JobOk, CallOk, MessageOk, Append;
    StepKeeps(env, w, a);
  }

  lemma RecordJustified(env: Env, w: World, a: Action)
    requires Inv(w) && Evident(w) && a.Record?
    ensures StepJustified(w, Step(env, w, a))
  {
    hide Inv, CalledFor, JobOk, CallOk, MessageOk, Append;
    StepKeeps(env, w, a);
    if a.t in w.jobs { assert JobEvident(w, a.t); }
  }

  lemma ReconcileJustified(env: Env, w: World, a: Action)
    requires Inv(w) && Evident(w) && a.Reconcile?
    ensures StepJustified(w, Step(env, w, a))
  {
    hide Inv, CalledFor, JobOk, CallOk, MessageOk, Append;
    StepKeeps(env, w, a);
  }

  lemma TotalsJustified(env: Env, w: World, a: Action)
    requires Inv(w) && Evident(w) && (a.Note? || a.Fill?)
    ensures StepJustified(w, Step(env, w, a))
  {
    hide Inv, CalledFor, JobOk, CallOk, MessageOk, Append, Scheduled, TradeRecorded, TradeIdUsed;
    StepKeeps(env, w, a);
  }

  lemma FinishJustified(env: Env, w: World, a: Action)
    requires Inv(w) && Evident(w) && (a.Publish? || a.Fail?)
    ensures StepJustified(w, Step(env, w, a))
  {
    hide Inv, CalledFor, JobOk, CallOk, MessageOk;
    StepKeeps(env, w, a);
    if a.t in w.jobs { assert JobEvident(w, a.t); }
  }

  lemma CreateJustified(env: Env, w: World, a: Action)
    requires Inv(w) && Evident(w) && a.Create?
    ensures StepJustified(w, Step(env, w, a))
  {
    hide Inv, CalledFor, Append, KeyUsed, ClientIdUsed;
    StepKeeps(env, w, a);
  }

  lemma ArrivalJustified(env: Env, w: World, a: Action)
    requires Inv(w) && Evident(w) && (a.Tick? || a.ClaimBatch?)
    ensures StepJustified(w, Step(env, w, a))
  {
    hide Inv, CalledFor, JobOk, CallOk, MessageOk, Append;
    StepKeeps(env, w, a);
  }

  lemma {:induction false} RunEvident(env: Env, w: World, actions: seq<Action>, k: nat)
    requires Initial(w) && k <= |actions|
    ensures Evident(Run(env, w, actions, k))
  {
    if k > 0 {
      hide Inv, Evident, StepJustified, Step, Initial;
      RunEvident(env, w, actions, k - 1);
      RunKeeps(env, w, actions, k - 1);
      var v, a := Run(env, w, actions, k - 1), actions[k - 1];
      if a.Read? || a.Send? || a.Answer? || a.Raise? || a.Crash? {
        JobMoveJustified(env, v, a);
      } else if a.Tick? || a.ClaimBatch? {
        ArrivalJustified(env, v, a);
      } else if a.Create? {
        CreateJustified(env, v, a);
      } else if a.Publish? || a.Fail? {
        FinishJustified(env, v, a);
      } else if a.Note? || a.Fill? {
        TotalsJustified(env, v, a);
      } else if a.Record? {
        RecordJustified(env, v, a);
      } else if a.Reconcile? {
        ReconcileJustified(env, v, a);
      } else if a.FailOrder? {
        FailOrderJustified(env, v, a);
      } else {
        AdvanceJustified(env, v, a);
      }
      JustifiedKeepsEvidence(v, Step(env, v, a));
    }
  }

  /** Main result: in every run, a published message's order has been sent to the venue at least once. */
  lemma PublishedWasCalled(env: Env, w: World, actions: seq<Action>, k: nat, id: string)
    requires Initial(w) && k <= |actions|
    requires var u := Run(env, w, actions, k); id in u.db.outbox && u.db.outbox[id].status == Published
    ensures var u := Run(env, w, actions, k); CalledFor(u, u.db.outbox[id].orderId)
  {
    hide CalledFor;
    RunEvident(env, w, actions, k);
  }
}
