/** That the publishing protocol delivers: what one undisturbed worker makes of the message it has claimed,
    whatever state its order is in, and that an order is created once per idempotency key. */
module OutboxDelivery {
  import opened OrderLedger
  import opened TradingDb
  import opened OutboxProtocol
  import opened Wrappers

  /** A worker has claimed a submission and holds it; it is for a known order. */
  ghost predicate Working(w: World, t: Ticket, worker: string, orderId: string) {
    && t in w.jobs && w.jobs[t] == Job(worker, Claimed, None, "")
    && t.messageId in w.db.outbox
    && var m := w.db.outbox[t.messageId];
    && m.topic == "market.order.submit" && m.orderId == orderId && m.lockedBy == Some(worker)
    && orderId in w.db.orders
  }

  ghost predicate IsPublished(db: Db, id: string) {
    id in db.outbox && db.outbox[id].status == Published && db.outbox[id].lockedBy == None
  }

  /** What the venue's answer makes of an order that is being submitted. */
  function Answered(reply: Reply): Status {
    if reply.Refused? then Rejected
    else if reply.status == StatusWord(Rejected) then Rejected
    else if reply.status == StatusWord(Failed) then Failed
    else Submitted
  }

  /** The venue is called, answers, and the answer is recorded and published. */
  function Finale(t: Ticket, reply: Reply, payload: string, marketOrderId: Option<string>): seq<Action> {
    [Send(t), Answer(t, reply), Record(t, payload, marketOrderId), Publish(t, false)]
  }

  lemma {:induction false} RunAppends(env: Env, w: World, a: seq<Action>, b: seq<Action>, k: nat)
    requires k <= |b|
    ensures Run(env, w, a + b, |a| + k) == Run(env, Run(env, w, a, |a|), b, k)
  {
    if k == 0 {
      RunPrefix(env, w, a, a + b, |a|);
    } else {
      RunAppends(env, w, a, b, k - 1);
    }
  }

  lemma {:induction false} RunPrefix(env: Env, w: World, a: seq<Action>, b: seq<Action>, k: nat)
    requires k <= |a| && a <= b
    ensures Run(env, w, a, k) == Run(env, w, b, k)
  {
    if k > 0 { RunPrefix(env, w, a, b, k - 1); }
  }

  /** The order as it is once the answer is in. */
  ghost predicate Delivered(before: World, after: World, t: Ticket, orderId: string, clientOrderId: string,
                            status: Status, marketOrderId: Option<string>) {
    && IsPublished(after.db, t.messageId) && t in after.jobs && after.jobs[t].pc == Done
    && orderId in after.db.orders && after.db.orders[orderId].status == status
    && (marketOrderId.Some? ==> after.db.orders[orderId].marketOrderId == marketOrderId)
    && after.calls == before.calls + [Call(t, clientOrderId)]
  }

  /** About to call the venue for an order that is being submitted. */
  ghost predicate AboutToCall(w: World, t: Ticket, worker: string, orderId: string) {
    && t in w.jobs && w.jobs[t].pc == Calling && w.jobs[t].worker == worker
    && w.jobs[t].seen == Some(Submitting)
    && t.messageId in w.db.outbox && w.db.outbox[t.messageId].orderId == orderId
    && w.db.outbox[t.messageId].lockedBy == Some(worker)
    && orderId in w.db.orders && w.db.orders[orderId].status == Submitting
  }

  lemma CallIsDelivered(env: Env, w: World, t: Ticket, worker: string, orderId: string, reply: Reply, payload: string,
                        marketOrderId: Option<string>)
    requires AboutToCall(w, t, worker, orderId)
    ensures Delivered(w, Run(env, w, Finale(t, reply, payload, marketOrderId), 4), t, orderId,
                      w.jobs[t].clientOrderId, Answered(reply), marketOrderId)
  {
    var actions := Finale(t, reply, payload, marketOrderId);
    FourSteps(env, w, actions);
    var sent := Step(env, w, actions[0]);
    assert sent == StepSend(w, t);
    var answered := Step(env, sent, actions[1]);
    assert answered == StepAnswer(sent, t, reply);
    AnswerLeaves(reply);
    hide Run, Step;
    AnswerIsRecorded(env, answered, t, worker, orderId, Answered(reply), payload, marketOrderId);
  }

  lemma FourSteps(env: Env, w: World, a: seq<Action>)
    requires |a| == 4
    ensures Run(env, w, a, 4) == Step(env, Step(env, Step(env, Step(env, w, a[0]), a[1]), a[2]), a[3])
  {
    hide Step;
    assert Run(env, w, a, 1) == Step(env, Run(env, w, a, 0), a[0]);
    assert Run(env, w, a, 2) == Step(env, Run(env, w, a, 1), a[1]);
    assert Run(env, w, a, 3) == Step(env, Run(env, w, a, 2), a[2]);
  }

  lemma AnswerLeaves(reply: Reply)
    ensures SubmissionTarget(Submitting, reply) == Answered(reply) && Answered(reply) in Transitions(Submitting)
  {}

  lemma AnswerIsRecorded(env: Env, w: World, t: Ticket, worker: string, orderId: string, target: Status,
                         payload: string, marketOrderId: Option<string>)
    requires t in w.jobs && w.jobs[t].pc == Recording(target) && w.jobs[t].worker == worker
    requires t.messageId in w.db.outbox && w.db.outbox[t.messageId].orderId == orderId
    requires w.db.outbox[t.messageId].lockedBy == Some(worker) && orderId in w.db.orders
    requires w.db.orders[orderId].status == Submitting && target in Transitions(Submitting)
    ensures var v := Step(env, Step(env, w, Record(t, payload, marketOrderId)), Publish(t, false));
            && IsPublished(v.db, t.messageId) && t in v.jobs && v.jobs[t].pc == Done && v.calls == w.calls
            && orderId in v.db.orders && v.db.orders[orderId].status == target
            && (marketOrderId.Some? ==> v.db.orders[orderId].marketOrderId == marketOrderId)
  {
    hide Append, Transitions;
    var recorded := Step(env, w, Record(t, payload, marketOrderId));
    assert recorded == StepRecord(env, w, t, payload, marketOrderId);
    assert recorded.jobs[t].pc == MustPublish;
    assert Step(env, recorded, Publish(t, false)) == StepPublish(recorded, t, false);
  }

  /** A ready order: the worker moves it to submitting, calls the venue once with the order's client id,
      and leaves order and message in the state the answer calls for. */
  lemma ReadyIsDelivered(env: Env, w: World, t: Ticket, worker: string, orderId: string, reply: Reply,
                         payload: string, marketOrderId: Option<string>)
    requires Working(w, t, worker, orderId) && w.db.orders[orderId].status == Ready
    ensures var actions := [Read(t), Advance(t, payload)] + Finale(t, reply, payload, marketOrderId);
            Delivered(w, Run(env, w, actions, 6), t, orderId, w.db.orders[orderId].clientOrderId, Answered(reply),
                      marketOrderId)
  {
    var start := [Read(t), Advance(t, payload)];
    var read, moved := Run(env, w, start, 1), Run(env, w, start, 2);
    assert Run(env, w, start, 0) == w;
    assert read == StepRead(w, t);
    assert moved == StepAdvance(env, read, t, payload) by { hide Append; }
    hide Append, Run, Delivered;
    CallIsDelivered(env, moved, t, worker, orderId, reply, payload, marketOrderId);
    RunAppends(env, w, start, Finale(t, reply, payload, marketOrderId), 4);
    SameCalls(w, moved, Run(env, moved, Finale(t, reply, payload, marketOrderId), 4), t, orderId,
              w.db.orders[orderId].clientOrderId, Answered(reply), marketOrderId);
  }

  lemma SameCalls(w: World, v: World, after: World, t: Ticket, orderId: string, clientOrderId: string, status: Status,
                  marketOrderId: Option<string>)
    requires v.calls == w.calls && Delivered(v, after, t, orderId, clientOrderId, status, marketOrderId)
    ensures Delivered(w, after, t, orderId, clientOrderId, status, marketOrderId)
  {}

  /** An order whose submission a crashed worker has left half done: it is sent again under the same client
      id, so that the venue can tell. */
  lemma SubmittingIsDelivered(env: Env, w: World, t: Ticket, worker: string, orderId: string, reply: Reply,
                              payload: string, marketOrderId: Option<string>)
    requires Working(w, t, worker, orderId) && w.db.orders[orderId].status == Submitting
    ensures var actions := [Read(t)] + Finale(t, reply, payload, marketOrderId);
            Delivered(w, Run(env, w, actions, 5), t, orderId, w.db.orders[orderId].clientOrderId, Answered(reply),
                      marketOrderId)
  {
    var start := [Read(t)];
    var read := Run(env, w, start, 1);
    assert Run(env, w, start, 0) == w;
    assert read == StepRead(w, t);
    hide Append, Run, Delivered;
    CallIsDelivered(env, read, t, worker, orderId, reply, payload, marketOrderId);
    RunAppends(env, w, start, Finale(t, reply, payload, marketOrderId), 4);
    SameCalls(w, read, Run(env, read, Finale(t, reply, payload, marketOrderId), 4), t, orderId,
              w.db.orders[orderId].clientOrderId, Answered(reply), marketOrderId);
  }

  /** An order the venue already knows: the message is published and the venue is not called again. */
  lemma SettledIsPublished(env: Env, w: World, t: Ticket, worker: string, orderId: string)
    requires Working(w, t, worker, orderId)
    requires w.db.orders[orderId].status in {Submitted, PartiallyFilled, Filled, Cancelled, Rejected, Expired}
    ensures var v := Run(env, w, [Read(t), Publish(t, false)], 2);
            IsPublished(v.db, t.messageId) && v.db.orders == w.db.orders && v.calls == w.calls
            && t in v.jobs && v.jobs[t].pc == Done
  {
    var actions := [Read(t), Publish(t, false)];
    assert Run(env, w, actions, 0) == w;
    assert Run(env, w, actions, 1) == StepRead(w, t);
  }

  /** Any other order, and any other topic: the attempt fails without a call, and without touching the
      order; after the last attempt the message is dead. */
  lemma UnsuitableFails(env: Env, w: World, t: Ticket, worker: string)
    requires t in w.jobs && w.jobs[t] == Job(worker, Claimed, None, "") && t.messageId in w.db.outbox
    requires var m := w.db.outbox[t.messageId];
             && m.lockedBy == Some(worker)
             && (m.topic != "market.order.submit" || m.orderId !in w.db.orders
                 || w.db.orders[m.orderId].status in {Draft, RiskRejected, CancelPending, Failed})
    ensures var v, m := Run(env, w, [Read(t), Fail(t)], 2), w.db.outbox[t.messageId];
            && v.db.orders == w.db.orders && v.calls == w.calls && t in v.jobs && v.jobs[t].pc == Done
            && t.messageId in v.db.outbox && v.db.outbox[t.messageId].lockedBy == None
            && v.db.outbox[t.messageId].status == if m.attempts >= m.maxAttempts then DeadLetter else RetryLater
  {
    var actions := [Read(t), Fail(t)];
    assert Run(env, w, actions, 0) == w;
    assert Run(env, w, actions, 1) == StepRead(w, t);
  }

  /** When the last attempt at a submission fails, message and order are given up together. */
  lemma LastFailureFailsOrder(env: Env, w: World, t: Ticket, worker: string, orderId: string, payload: string)
    requires t in w.jobs && w.jobs[t].pc == MustFail && w.jobs[t].worker == worker
    requires w.jobs[t].seen == Some(Submitting) && t.messageId in w.db.outbox
    requires var m := w.db.outbox[t.messageId];
             m.orderId == orderId && m.lockedBy == Some(worker) && m.attempts >= m.maxAttempts
    requires orderId in w.db.orders && w.db.orders[orderId].status == Submitting
    ensures var v := Run(env, w, [Fail(t), FailOrder(t, payload)], 2);
            && t.messageId in v.db.outbox && v.db.outbox[t.messageId].status == DeadLetter
            && orderId in v.db.orders && v.db.orders[orderId].status == Failed
            && t in v.jobs && v.jobs[t].pc == Done
  {
    hide Append;
    var actions := [Fail(t), FailOrder(t, payload)];
    assert Run(env, w, actions, 0) == w;
    assert Run(env, w, actions, 1) == StepFail(w, t);
  }

  /** With attempts left, or for an order that was not being submitted, only the message is put back. */
  lemma OtherFailureKeepsOrder(env: Env, w: World, t: Ticket)
    requires t in w.jobs && w.jobs[t].pc == MustFail && t.messageId in w.db.outbox
    requires w.db.outbox[t.messageId].attempts < w.db.outbox[t.messageId].maxAttempts
             || w.jobs[t].seen != Some(Submitting)
    ensures var v := Step(env, w, Fail(t)); v.db.orders == w.db.orders && t in v.jobs && v.jobs[t].pc == Done
  {}

  /** An exception may strike anywhere from reading the order to publishing the message, and leads to the
      handler; the handler's own steps are not guarded. A crash ends the job where it is. Neither touches
      the tables, the clock or the calls. */
  lemma TroubleIsLocal(env: Env, w: World, t: Ticket)
    requires t in w.jobs
    ensures var v, pc := Step(env, w, Raise(t)), w.jobs[t].pc;
            var guarded := pc.Claimed? || pc.Advancing? || pc.Calling? || pc.Awaiting? || pc.Recording?
                           || pc.MustPublish?;
            v == if guarded then w.(jobs := w.jobs[t := w.jobs[t].(pc := MustFail)]) else w
    ensures Step(env, w, Crash(t)) == w.(jobs := w.jobs[t := w.jobs[t].(pc := Done)])
    ensures forall seconds: nat :: Step(env, w, Tick(seconds)) == w.(now := w.now + seconds)
  {}

  // ---------------------------------------------------------------------------------------
  // One order per idempotency key
  // ---------------------------------------------------------------------------------------

  ghost predicate KeysUnique(db: Db) {
    forall a, b :: a in db.orders && b in db.orders && a != b ==>
      && db.orders[a].idempotencyKey != db.orders[b].idempotencyKey
      && db.orders[a].clientOrderId != db.orders[b].clientOrderId
  }

  /** Rows that exist keep both identifiers. */
  ghost predicate IdentitiesStay(before: Db, after: Db) {
    forall id :: id in before.orders ==>
      && id in after.orders && after.orders[id].idempotencyKey == before.orders[id].idempotencyKey
      && after.orders[id].clientOrderId == before.orders[id].clientOrderId
  }

  lemma OthersAddNothing(env: Env, w: World, a: Action)
    requires !a.Create?
    ensures Step(env, w, a).db.orders.Keys == w.db.orders.Keys && IdentitiesStay(w.db, Step(env, w, a).db)
  {
    hide TransitionOrder, ReconcileOrder, RecordFill;
    if a.Advance? && Stands(w, a.t, Advancing) {
      TransitionKeepsIdentities(env, w.db, MessageOf(w, a.t).orderId, Submitting, w.jobs[a.t].worker, a.payload, None);
    } else if a.Record? && a.t in w.jobs && a.t.messageId in w.db.outbox && w.jobs[a.t].pc.Recording? {
      TransitionKeepsIdentities(env, w.db, MessageOf(w, a.t).orderId, w.jobs[a.t].pc.target, w.jobs[a.t].worker,
                                a.payload, a.marketOrderId);
    } else if a.FailOrder? && Stands(w, a.t, MustFailOrder) {
      TransitionKeepsIdentities(env, w.db, MessageOf(w, a.t).orderId, Failed, w.jobs[a.t].worker, a.payload, None);
    } else if a.Reconcile? {
      TransitionKeepsIdentities(env, w.db, a.orderId, a.remote, a.actor, a.payload, a.marketOrderId);
    } else if a.Note? || a.Fill? {
      TotalsKeepIdentities(env, w.db, a);
    }
  }

  lemma TransitionKeepsIdentities(env: Env, db: Db, orderId: string, target: Status, actor: string, payload: string,
                                  marketOrderId: Option<string>)
    ensures var r := TransitionOrder(env, db, orderId, target, actor, payload, marketOrderId);
            r.Ok? ==> r.value.orders.Keys == db.orders.Keys && IdentitiesStay(db, r.value)
  {
    hide Append, Transitions;
  }

  lemma TotalsKeepIdentities(env: Env, db: Db, a: Action)
    requires a.Note? || a.Fill?
    ensures a.Note? ==>
              var r := ReconcileOrder(env, db, a.orderId, a.outcome, a.actor, a.payload);
              r.Ok? ==> r.value.orders.Keys == db.orders.Keys && IdentitiesStay(db, r.value)
    ensures a.Fill? ==>
              var r := RecordFill(env, db, a.tradeId, a.orderId, a.marketTradeId, a.quantityKw, a.pricePerKwh, a.actor,
                                  a.payload);
              r.Ok? ==> r.value.orders.Keys == db.orders.Keys && IdentitiesStay(db, r.value)
  {
    hide Append, Scheduled, TradeRecorded, TradeIdUsed;
  }

  lemma CreateAddsOne(env: Env, w: World, a: Action)
    requires a.Create? && KeysUnique(w.db)
    ensures KeysUnique(Step(env, w, a).db) && IdentitiesStay(w.db, Step(env, w, a).db)
  {
    hide Append;
  }

  /** In every run no two orders share an idempotency key or a client id. */
  lemma {:induction false} RunKeysUnique(env: Env, w: World, actions: seq<Action>, k: nat)
    requires Initial(w) && k <= |actions|
    ensures KeysUnique(Run(env, w, actions, k).db)
  {
    hide Step;
    if k > 0 {
      RunKeysUnique(env, w, actions, k - 1);
      var v, a := Run(env, w, actions, k - 1), actions[k - 1];
      if a.Create? { CreateAddsOne(env, v, a); } else { OthersAddNothing(env, v, a); }
    }
  }

  /** A request that repeats a key changes nothing; one with a new key, client id and row ids is placed as
      it was decided, and sent only if it was approved. */
  lemma CreateOncePerKey(env: Env, w: World, a: Action)
    requires a.Create?
    ensures var v := Step(env, w, a);
            && ((exists id :: id in w.db.orders && w.db.orders[id].idempotencyKey == a.key) ==> v == w)
            && (a.quantityKw > 0.0 && a.orderId !in w.db.orders && a.messageId !in w.db.outbox
                && (forall id :: id in w.db.orders ==>
                      && w.db.orders[id].idempotencyKey != a.key
                      && w.db.orders[id].clientOrderId != env.clientOrderId(a.key)) ==>
                && v.db.orders.Keys == w.db.orders.Keys + {a.orderId}
                && v.db.outbox.Keys == w.db.outbox.Keys + (if a.approved then {a.messageId} else {})
                && var o := v.db.orders[a.orderId];
                && o.idempotencyKey == a.key && o.clientOrderId == env.clientOrderId(a.key)
                && o.quantityKw == a.quantityKw && o.allocation == a.allocation && o.filledKw == 0.0
                && o.status == if a.approved then Ready else RiskRejected)
  {
    hide Append;
  }
}
