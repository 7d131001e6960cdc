/** The lease-based publishing protocol of vpp_operations.py over the tables of vpp_repository.py.
    Every action is one transaction or one local step of one worker; a run is any sequence of
    actions, so workers interleave, crash, lose leases and race with reconciliation and fills. */
module OutboxProtocol {
  import opened OrderLedger
  import opened TradingDb
  import opened Wrappers

  /** Where a worker stands with one claimed message. */
  datatype Pc =
    | Claimed                     // leased, order not read yet
    | Advancing                   // order was ready: move it to submitting
    | Calling                     // order is submitting: call the venue
    | Awaiting                    // venue called, no answer processed
    | Recording(target: Status)   // record the venue's answer
    | MustPublish                 // finish the message as published
    | MustFail                    // an exception was caught: finish the message as not published
    | MustFailOrder               // message is dead: fail the order
    | Done

  /** One claim of one message: the attempt number makes it unique. */
  datatype Ticket = Ticket(messageId: string, attempt: nat)

  /** A worker's local variables: the order's status and client id as last seen. */
  datatype Job = Job(worker: string, pc: Pc, seen: Option<Status>, clientOrderId: string)

  datatype Call = Call(ticket: Ticket, clientOrderId: string)

  datatype World = World(db: Db, now: int, jobs: map<Ticket, Job>, calls: seq<Call>)

  /** The venue's status text, already lower-cased. */
  datatype VenueStatus = AcceptedWord | StatusWord(status: Status) | OtherWord

  datatype Reply = Refused | Acknowledged(status: VenueStatus)

  datatype Action =
    | Tick(seconds: nat)
    | Create(orderId: string, messageId: string, key: string, quantityKw: real, allocation: seq<Allocation>,
             approved: bool, actor: string, decision: string)
    | ClaimBatch(chosen: set<string>, worker: string, leaseSeconds: nat)
    | Read(t: Ticket)
    | Advance(t: Ticket, payload: string)
    | Send(t: Ticket)
    | Answer(t: Ticket, reply: Reply)
    | Record(t: Ticket, payload: string, marketOrderId: Option<string>)
    | Publish(t: Ticket, answerLost: bool)
    | Fail(t: Ticket)
    | FailOrder(t: Ticket, payload: string)
    | Raise(t: Ticket)
    | Crash(t: Ticket)
    | Reconcile(orderId: string, remote: Status, actor: string, payload: string, marketOrderId: Option<string>)
    | Note(orderId: string, outcome: Reconciliation, actor: string, payload: string)
    | Fill(tradeId: string, orderId: string, marketTradeId: string, quantityKw: real, pricePerKwh: real,
           actor: string, payload: string)

  const RETRY_DELAY := 30

  // ---------------------------------------------------------------------------------------
  // Steps
  // ---------------------------------------------------------------------------------------

  /** _submission_target_status. */
  function SubmissionTarget(current: Status, reply: Reply): Status {
    match reply
    case Refused => Rejected
    case Acknowledged(word) =>
      match word
      case AcceptedWord => Submitted
      case StatusWord(s) => if s in Transitions(current) then s else Submitted
      case OtherWord => Submitted
  }

  /** Statuses in which the worker finds nothing left to submit. */
  predicate Settled(s: Status) { s in {Submitted, PartiallyFilled, Filled, Cancelled, Rejected, Expired} }

  predicate Stands(w: World, t: Ticket, pc: Pc) { t in w.jobs && t.messageId in w.db.outbox && w.jobs[t].pc == pc }

  function Move(w: World, t: Ticket, pc: Pc): World
    requires t in w.jobs
  {
    w.(jobs := w.jobs[t := w.jobs[t].(pc := pc)])
  }

  function MessageOf(w: World, t: Ticket): Message
    requires t.messageId in w.db.outbox
  {
    w.db.outbox[t.messageId]
  }

  function StepRead(w: World, t: Ticket): World
    requires Stands(w, t, Claimed)
  {
    var m := MessageOf(w, t);
    if m.topic != SUBMIT_TOPIC || m.orderId !in w.db.orders then Move(w, t, MustFail)
    else
      var o := w.db.orders[m.orderId];
      var pc := if Settled(o.status) then MustPublish
                else if o.status == Ready then Advancing
                else if o.status == Submitting then Calling
                else MustFail;
      w.(jobs := w.jobs[t := w.jobs[t].(pc := pc, seen := Some(o.status), clientOrderId := o.clientOrderId)])
  }

  function StepAdvance(env: Env, w: World, t: Ticket, payload: string): World
    requires Stands(w, t, Advancing)
  {
    match TransitionOrder(env, w.db, MessageOf(w, t).orderId, Submitting, w.jobs[t].worker, payload, None)
    case Err(_) => Move(w, t, MustFail)
    case Ok(db) => w.(db := db, jobs := w.jobs[t := w.jobs[t].(pc := Calling, seen := Some(Submitting))])
  }

  function StepSend(w: World, t: Ticket): World
    requires Stands(w, t, Calling)
  {
    Move(w, t, Awaiting).(calls := w.calls + [Call(t, w.jobs[t].clientOrderId)])
  }

  function StepAnswer(w: World, t: Ticket, reply: Reply): World
    requires Stands(w, t, Awaiting)
  {
    var current := if w.jobs[t].seen.Some? then w.jobs[t].seen.value else Draft;
    Move(w, t, Recording(SubmissionTarget(current, reply)))
  }

  function StepRecord(env: Env, w: World, t: Ticket, payload: string, marketOrderId: Option<string>): World
    requires t in w.jobs && t.messageId in w.db.outbox && w.jobs[t].pc.Recording?
  {
    match TransitionOrder(env, w.db, MessageOf(w, t).orderId, w.jobs[t].pc.target, w.jobs[t].worker, payload,
                          marketOrderId)
    case Err(_) => Move(w, t, MustFail)
    case Ok(db) => Move(w, t, MustPublish).(db := db)
  }

  function StepPublish(w: World, t: Ticket, answerLost: bool): World
    requires Stands(w, t, MustPublish)
  {
    match Finish(w.db, t.messageId, w.jobs[t].worker, true, w.now, RETRY_DELAY)
    case Err(_) => Move(w, t, MustFail)
    case Ok(db) => Move(w, t, if answerLost then MustFail else Done).(db := db)
  }

  function StepFail(w: World, t: Ticket): World
    requires Stands(w, t, MustFail)
  {
    match Finish(w.db, t.messageId, w.jobs[t].worker, false, w.now, RETRY_DELAY)
    case Err(_) => Move(w, t, Done)
    case Ok(db) =>
      var dead := db.outbox[t.messageId].status == DeadLetter && w.jobs[t].seen == Some(Submitting);
      Move(w, t, if dead then MustFailOrder else Done).(db := db)
  }

  function StepFailOrder(env: Env, w: World, t: Ticket, payload: string): World
    requires Stands(w, t, MustFailOrder)
  {
    match TransitionOrder(env, w.db, MessageOf(w, t).orderId, Failed, w.jobs[t].worker, payload, None)
    case Err(_) => Move(w, t, Done)
    case Ok(db) => Move(w, t, Done).(db := db)
  }

  /** Lines inside the try block, where any call may raise. */
  predicate InsideTry(pc: Pc) {
    pc.Claimed? || pc.Advancing? || pc.Calling? || pc.Awaiting? || pc.Recording? || pc.MustPublish?
  }

  predicate AllDue(db: Db, chosen: set<string>, now: int) {
    forall m :: m in chosen ==> m in db.outbox && Due(db.outbox[m], now)
  }

  /** New tickets of a claim, one per message, numbered with the attempt the claim starts. */
  function NewJobs(db: Db, chosen: set<string>, worker: string): (jobs: map<Ticket, Job>)
    requires forall m :: m in chosen ==> m in db.outbox
  {
    map m | m in chosen :: Ticket(m, db.outbox[m].attempts + 1) := Job(worker, Claimed, None, "")
  }

  function WithDb(w: World, r: Outcome<Db>): World { if r.Ok? then w.(db := r.value) else w }

  /** One step; an action that is not enabled leaves the world as it is. */
  function Step(env: Env, w: World, a: Action): World {
    match a
    case Tick(seconds) => w.(now := w.now + seconds)
    case Create(orderId, messageId, key, quantityKw, allocation, approved, actor, decision) =>
      WithDb(w, CreateOrder(env, w.db, orderId, messageId, key, quantityKw, allocation, approved, actor, decision,
                            w.now))
    case ClaimBatch(chosen, worker, leaseSeconds) =>
      if AllDue(w.db, chosen, w.now) then
        w.(db := Claim(w.db, chosen, worker, w.now, leaseSeconds), jobs := w.jobs + NewJobs(w.db, chosen, worker))
      else w
    case Read(t) => if Stands(w, t, Claimed) then StepRead(w, t) else w
    case Advance(t, payload) => if Stands(w, t, Advancing) then StepAdvance(env, w, t, payload) else w
    case Send(t) => if Stands(w, t, Calling) then StepSend(w, t) else w
    case Answer(t, reply) => if Stands(w, t, Awaiting) then StepAnswer(w, t, reply) else w
    case Record(t, payload, marketOrderId) =>
      if t in w.jobs && t.messageId in w.db.outbox && w.jobs[t].pc.Recording?
          then StepRecord(env, w, t, payload, marketOrderId) else w
    case Publish(t, answerLost) => if Stands(w, t, MustPublish) then StepPublish(w, t, answerLost) else w
    case Fail(t) => if Stands(w, t, MustFail) then StepFail(w, t) else w
    case FailOrder(t, payload) => if Stands(w, t, MustFailOrder) then StepFailOrder(env, w, t, payload) else w
    case Raise(t) => if t in w.jobs && InsideTry(w.jobs[t].pc) then Move(w, t, MustFail) else w
    case Crash(t) => if t in w.jobs then Move(w, t, Done) else w
    case Reconcile(orderId, remote, actor, payload, marketOrderId) =>
      // only orders the venue has given an id are listed for reconciliation
      if orderId in w.db.orders && w.db.orders[orderId].marketOrderId.Some?
      then WithDb(w, TransitionOrder(env, w.db, orderId, remote, actor, payload, marketOrderId))
      else w
    case Note(orderId, outcome, actor, payload) =>
      WithDb(w, ReconcileOrder(env, w.db, orderId, outcome, actor, payload))
    case Fill(tradeId, orderId, marketTradeId, quantityKw, pricePerKwh, actor, payload) =>
      WithDb(w, RecordFill(env, w.db, tradeId, orderId, marketTradeId, quantityKw, pricePerKwh, actor, payload))
  }

  /** The world after the first k actions. */
  function Run(env: Env, w: World, actions: seq<Action>, k: nat): World
    requires k <= |actions|
  {
    if k == 0 then w else Step(env, Run(env, w, actions, k - 1), actions[k - 1])
  }

  const EMPTY_DB := Db(map[], [], [], map[])

  /** Empty tables, no worker at work, any clock. */
  ghost predicate Initial(w: World) { w.db == EMPTY_DB && w.jobs == map[] && w.calls == [] }

  // ---------------------------------------------------------------------------------------
  // Invariant
  // ---------------------------------------------------------------------------------------

  ghost predicate OrderLeft(db: Db, orderId: string) { orderId in db.orders && Left(db.orders[orderId].status) }

  ghost predicate MessageOk(db: Db, id: string)
    requires id in db.outbox
  {
    var m := db.outbox[id];
    && m.attempts <= m.maxAttempts
    && (m.status == Published || m.status == DeadLetter ==> m.lockedBy == None)
    && (m.status == DeadLetter ==> m.attempts == m.maxAttempts)
    && (m.status == Published ==> OrderLeft(db, m.orderId))
  }

  /** The worker has not called the venue yet. */
  predicate Early(pc: Pc) { pc.Claimed? || pc.Advancing? || pc.Calling? }

  predicate KnowsOrder(pc: Pc) { pc.Advancing? || pc.Calling? || pc.Awaiting? || pc.Recording? }

  ghost predicate JobOk(w: World, t: Ticket)
    requires t in w.jobs
  {
    var j := w.jobs[t];
    && t.messageId in w.db.outbox
    && var m := w.db.outbox[t.messageId];
    && 1 <= t.attempt <= m.attempts
    && (KnowsOrder(j.pc) ==> m.orderId in w.db.orders && w.db.orders[m.orderId].clientOrderId == j.clientOrderId)
    && (j.pc.Calling? || j.pc.Awaiting? ==> j.seen == Some(Submitting))
    && (j.pc.Recording? ==> Left(j.pc.target))
    && (j.pc.MustPublish? ==> OrderLeft(w.db, m.orderId))
    && (Early(j.pc) ==> forall i :: 0 <= i < |w.calls| ==> w.calls[i].ticket != t)
  }

  ghost predicate CallOk(w: World, i: nat)
    requires i < |w.calls|
  {
    var c := w.calls[i];
    && c.ticket in w.jobs && c.ticket.messageId in w.db.outbox
    && var m := w.db.outbox[c.ticket.messageId];
    && 1 <= c.ticket.attempt <= m.attempts
    && m.orderId in w.db.orders && w.db.orders[m.orderId].clientOrderId == c.clientOrderId
  }

  ghost predicate CallsDistinct(calls: seq<Call>) {
    forall i, j :: 0 <= i < j < |calls| ==> calls[i].ticket != calls[j].ticket
  }

  ghost predicate Inv(w: World) {
    && (forall id :: id in w.db.outbox ==> MessageOk(w.db, id))
    && (forall t :: t in w.jobs ==> JobOk(w, t))
    && (forall i :: 0 <= i < |w.calls| ==> CallOk(w, i))
    && CallsDistinct(w.calls)
  }

  // ---------------------------------------------------------------------------------------
  // What one step may do to rows that exist
  // ---------------------------------------------------------------------------------------

  /** Orders stay, keep their identity, and move only along the status machine. */
  ghost predicate OrdersAdvance(before: Db, after: Db) {
    forall id :: id in before.orders ==> OrderAdvances(before, after, id)
  }

  ghost predicate OrderAdvances(before: Db, after: Db, id: string)
    requires id in before.orders
  {
    && id in after.orders
    && after.orders[id].clientOrderId == before.orders[id].clientOrderId
    && (after.orders[id].status == before.orders[id].status
        || after.orders[id].status in Transitions(before.orders[id].status))
  }

  ghost predicate MessageAdvances(before: Db, after: Db, id: string)
    requires id in before.outbox
  {
    && id in after.outbox
    && var m, n := before.outbox[id], after.outbox[id];
    && n.orderId == m.orderId && n.maxAttempts == m.maxAttempts && m.attempts <= n.attempts
    && (m.status == Published || m.status == DeadLetter ==> n == m)
  }

  /** Messages stay, keep their order, never lose attempts; published and dead ones are frozen. */
  ghost predicate MessagesAdvance(before: Db, after: Db) {
    forall id :: id in before.outbox ==> MessageAdvances(before, after, id)
  }

  lemma LeftStays(before: Db, after: Db, orderId: string)
    requires OrdersAdvance(before, after) && OrderLeft(before, orderId)
    ensures OrderLeft(after, orderId)
  {
    assert OrderAdvances(before, after, orderId);
    if after.orders[orderId].status != before.orders[orderId].status {
      LeavingIsFinal(before.orders[orderId].status, after.orders[orderId].status);
    }
  }

  /** A change of orders alone keeps the invariant. */
  lemma OrderChange(w: World, db: Db)
    requires Inv(w) && OrdersAdvance(w.db, db) && db.outbox == w.db.outbox
    ensures Inv(w.(db := db))
  {
    var v := w.(db := db);
    forall id | id in v.db.outbox ensures MessageOk(v.db, id) {
      assert MessageOk(w.db, id);
      if v.db.outbox[id].status == Published { LeftStays(w.db, db, v.db.outbox[id].orderId); }
    }
    forall t | t in v.jobs ensures JobOk(v, t) {
      assert JobOk(w, t);
      var id := v.db.outbox[t.messageId].orderId;
      if id in w.db.orders { assert OrderAdvances(w.db, db, id); }
      if v.jobs[t].pc.MustPublish? { LeftStays(w.db, db, id); }
    }
    forall i | 0 <= i < |v.calls| ensures CallOk(v, i) {
      assert CallOk(w, i);
      assert OrderAdvances(w.db, db, w.db.outbox[w.calls[i].ticket.messageId].orderId);
    }
  }

  /** A job that moves without returning to the time before its call keeps the invariant. */
  lemma JobChange(w: World, t: Ticket, j: Job)
    requires Inv(w) && t in w.jobs && (Early(j.pc) ==> Early(w.jobs[t].pc))
    requires var m := w.db.outbox[t.messageId];
             && (KnowsOrder(j.pc) ==>
                   m.orderId in w.db.orders && w.db.orders[m.orderId].clientOrderId == j.clientOrderId)
             && (j.pc.Calling? || j.pc.Awaiting? ==> j.seen == Some(Submitting))
             && (j.pc.Recording? ==> Left(j.pc.target))
             && (j.pc.MustPublish? ==> OrderLeft(w.db, m.orderId))
    ensures Inv(w.(jobs := w.jobs[t := j]))
  {
    var v := w.(jobs := w.jobs[t := j]);
    assert JobOk(w, t);
    forall s | s in v.jobs ensures JobOk(v, s) {
      if s != t { assert JobOk(w, s); }
    }
    forall i | 0 <= i < |v.calls| ensures CallOk(v, i) { assert CallOk(w, i); }
  }

  lemma CallChange(w: World, t: Ticket)
    requires Inv(w) && Stands(w, t, Calling)
    ensures Inv(StepSend(w, t))
  {
    var v := StepSend(w, t);
    assert JobOk(w, t);
    forall s | s in v.jobs ensures JobOk(v, s) {
      assert JobOk(w, s);
      if s != t { assert forall i :: 0 <= i < |w.calls| ==> v.calls[i] == w.calls[i]; }
    }
    forall i | 0 <= i < |v.calls| ensures CallOk(v, i) {
      if i < |w.calls| { assert CallOk(w, i); }
    }
  }

  /** A change of one message that keeps its attempts keeps the invariant. */
  lemma MessageChange(w: World, id: string, m: Message)
    requires Inv(w) && id in w.db.outbox
    requires var o := w.db.outbox[id];
             m.orderId == o.orderId && m.maxAttempts == o.maxAttempts && m.attempts == o.attempts
    requires MessageOk(w.db.(outbox := w.db.outbox[id := m]), id)
    ensures Inv(w.(db := w.db.(outbox := w.db.outbox[id := m])))
  {
    var v := w.(db := w.db.(outbox := w.db.outbox[id := m]));
    forall k | k in v.db.outbox ensures MessageOk(v.db, k) {
      if k != id { assert MessageOk(w.db, k); }
    }
    forall t | t in v.jobs ensures JobOk(v, t) { assert JobOk(w, t); }
    forall i | 0 <= i < |v.calls| ensures CallOk(v, i) { assert CallOk(w, i); }
  }

  /** A ticket of a claim is new: its attempt is the next one. */
  lemma ClaimedJob(w: World, chosen: set<string>, worker: string, leaseSeconds: int, t: Ticket)
    requires Inv(w) && AllDue(w.db, chosen, w.now) && t in NewJobs(w.db, chosen, worker)
    ensures JobOk(w.(db := Claim(w.db, chosen, worker, w.now, leaseSeconds),
                     jobs := w.jobs + NewJobs(w.db, chosen, worker)), t)
  {
    forall i | 0 <= i < |w.calls| ensures w.calls[i].ticket != t { assert CallOk(w, i); }
  }

  lemma ClaimChange(w: World, chosen: set<string>, worker: string, leaseSeconds: int)
    requires Inv(w) && AllDue(w.db, chosen, w.now)
    ensures Inv(w.(db := Claim(w.db, chosen, worker, w.now, leaseSeconds),
                   jobs := w.jobs + NewJobs(w.db, chosen, worker)))
  {
    var added := NewJobs(w.db, chosen, worker);
    var v := w.(db := Claim(w.db, chosen, worker, w.now, leaseSeconds), jobs := w.jobs + added);
    forall id | id in v.db.outbox ensures MessageOk(v.db, id) { assert MessageOk(w.db, id); }
    forall t | t in v.jobs ensures JobOk(v, t) {
      if t in added {
        ClaimedJob(w, chosen, worker, leaseSeconds, t);
      } else {
        assert JobOk(w, t);
      }
    }
    forall i | 0 <= i < |v.calls| ensures CallOk(v, i) { assert CallOk(w, i); }
  }

  // ---------------------------------------------------------------------------------------
  // Every step keeps the invariant and advances the rows
  // ---------------------------------------------------------------------------------------

  lemma TransitionAdvances(env: Env, db: Db, orderId: string, target: Status, actor: string, payload: string,
                           marketOrderId: Option<string>)
    ensures var r := TransitionOrder(env, db, orderId, target, actor, payload, marketOrderId);
            r.Ok? ==> OrdersAdvance(db, r.value) && r.value.outbox == db.outbox && orderId in r.value.orders
                      && r.value.orders[orderId].status == target
  {}

  lemma FillAdvances(env: Env, db: Db, tradeId: string, orderId: string, marketTradeId: string, quantityKw: real,
                     pricePerKwh: real, actor: string, payload: string)
    ensures var r := RecordFill(env, db, tradeId, orderId, marketTradeId, quantityKw, pricePerKwh, actor, payload);
            r.Ok? ==> OrdersAdvance(db, r.value) && r.value.outbox == db.outbox
  {
    hide Append;
  }

  lemma NoteAdvances(env: Env, db: Db, orderId: string, outcome: Reconciliation, actor: string, payload: string)
    ensures var r := ReconcileOrder(env, db, orderId, outcome, actor, payload);
            r.Ok? ==> OrdersAdvance(db, r.value) && r.value.outbox == db.outbox
  {}

  /** Rows that exist stay as they are, and a new message has not been tried yet. */
  ghost predicate OnlyAdds(before: Db, after: Db) {
    && (forall id :: id in before.outbox ==> id in after.outbox && after.outbox[id] == before.outbox[id])
    && (forall id :: id in after.outbox && id !in before.outbox ==>
          after.outbox[id].status == Pending && after.outbox[id].attempts == 0)
  }

  lemma CreateAdds(env: Env, db: Db, orderId: string, messageId: string, key: string, quantityKw: real,
                   allocation: seq<Allocation>, approved: bool, actor: string, decision: string, now: int)
    ensures var r := CreateOrder(env, db, orderId, messageId, key, quantityKw, allocation, approved, actor, decision,
                                 now);
            r.Ok? ==> OrdersAdvance(db, r.value) && OnlyAdds(db, r.value)
  {
    hide Append, KeyUsed, ClientIdUsed;
  }

  lemma AddingKeeps(w: World, db: Db)
    requires Inv(w) && OrdersAdvance(w.db, db) && OnlyAdds(w.db, db)
    ensures Inv(w.(db := db)) && MessagesAdvance(w.db, db)
  {
    var v := w.(db := db);
    forall id | id in v.db.outbox ensures MessageOk(v.db, id) {
      if id in w.db.outbox {
        assert MessageOk(w.db, id);
        if v.db.outbox[id].status == Published { LeftStays(w.db, db, v.db.outbox[id].orderId); }
      }
    }
    forall t | t in v.jobs ensures JobOk(v, t) {
      assert JobOk(w, t);
      var id := w.db.outbox[t.messageId].orderId;
      if id in w.db.orders { assert OrderAdvances(w.db, db, id); }
      if v.jobs[t].pc.MustPublish? { LeftStays(w.db, db, id); }
    }
    forall i | 0 <= i < |v.calls| ensures CallOk(v, i) {
      assert CallOk(w, i);
      assert OrderAdvances(w.db, db, w.db.outbox[w.calls[i].ticket.messageId].orderId);
    }
  }

  lemma CreateStep(env: Env, w: World, a: Action)
    requires Inv(w) && a.Create?
    ensures Inv(Step(env, w, a)) && OrdersAdvance(w.db, Step(env, w, a).db) && MessagesAdvance(w.db, Step(env, w, a).db)
  {
    hide Inv, CreateOrder, OnlyAdds, MessagesAdvance;
    var v := Step(env, w, a);
    CreateAdds(env, w.db, a.orderId, a.messageId, a.key, a.quantityKw, a.allocation, a.approved, a.actor, a.decision,
               w.now);
    if v != w {
      AddingKeeps(w, v.db);
    } else {
      NothingChanges(w.db);
    }
  }

  lemma NothingChanges(db: Db)
    ensures OrdersAdvance(db, db) && MessagesAdvance(db, db)
  {}

  lemma FinishStep(w: World, t: Ticket, published: bool)
    requires Inv(w) && t in w.jobs && t.messageId in w.db.outbox
    requires published ==> w.jobs[t].pc.MustPublish?
    ensures var r := Finish(w.db, t.messageId, w.jobs[t].worker, published, w.now, RETRY_DELAY);
            r.Ok? ==> Inv(w.(db := r.value)) && r.value.orders == w.db.orders && MessagesAdvance(w.db, r.value)
  {
    var r := Finish(w.db, t.messageId, w.jobs[t].worker, published, w.now, RETRY_DELAY);
    if r.Ok? {
      assert JobOk(w, t) && MessageOk(w.db, t.messageId);
      MessageChange(w, t.messageId, r.value.outbox[t.messageId]);
    }
  }

  lemma TargetLeaves(reply: Reply)
    ensures SubmissionTarget(Submitting, reply) in Transitions(Submitting) && Left(SubmissionTarget(Submitting, reply))
  {}

  lemma KnownJob(w: World, t: Ticket)
    requires Inv(w) && t in w.jobs
    ensures JobOk(w, t)
  {}

  /** The steps of one worker that touch no table. */
  lemma LocalStep(env: Env, w: World, a: Action)
    requires Inv(w) && (a.Read? || a.Send? || a.Answer? || a.Raise? || a.Crash?)
    ensures Inv(Step(env, w, a)) && Step(env, w, a).db == w.db
  {
    hide Inv;
    var v := Step(env, w, a);
    var t := a.t;
    if v != w {
      KnownJob(w, t);
      if a.Send? {
        CallChange(w, t);
      } else {
        if a.Answer? { TargetLeaves(a.reply); }
        JobChange(w, t, v.jobs[t]);
      }
    }
  }

  /** The steps of one worker that move an order. */
  lemma OrderStep(env: Env, w: World, a: Action)
    requires Inv(w) && (a.Advance? || a.Record? || a.FailOrder?)
    ensures Inv(Step(env, w, a)) && OrdersAdvance(w.db, Step(env, w, a).db) && Step(env, w, a).db.outbox == w.db.outbox
  {
    hide Inv, TransitionOrder;
    var v := Step(env, w, a);
    var t := a.t;
    if v != w {
      KnownJob(w, t);
      var target := if a.Advance? then Submitting else if a.Record? then w.jobs[t].pc.target else Failed;
      TransitionAdvances(env, w.db, MessageOf(w, t).orderId, target, w.jobs[t].worker, a.payload,
                         if a.Record? then a.marketOrderId else None);
      OrderChange(w, v.db);
      KnownJob(w.(db := v.db), t);
      JobChange(w.(db := v.db), t, v.jobs[t]);
    }
  }

  /** The steps that end a message. */
  lemma FinishingStep(env: Env, w: World, a: Action)
    requires Inv(w) && (a.Publish? || a.Fail?)
    ensures Inv(Step(env, w, a)) && Step(env, w, a).db.orders == w.db.orders
    ensures MessagesAdvance(w.db, Step(env, w, a).db)
  {
    hide Inv, Finish, MessageOk, MessagesAdvance;
    var v := Step(env, w, a);
    var t := a.t;
    if v != w {
      KnownJob(w, t);
      FinishStep(w, t, a.Publish?);
      if v.db == w.db { NothingChanges(w.db); }
      KnownJob(w.(db := v.db), t);
      JobChange(w.(db := v.db), t, v.jobs[t]);
    } else {
      NothingChanges(w.db);
    }
  }

  /** Every step keeps the invariant; orders and messages only advance. */
  lemma StepKeeps(env: Env, w: World, a: Action)
    requires Inv(w)
    ensures Inv(Step(env, w, a)) && OrdersAdvance(w.db, Step(env, w, a).db) && MessagesAdvance(w.db, Step(env, w, a).db)
  {
    if a.Create? {
      CreateStep(env, w, a);
    } else if a.ClaimBatch? || a.Tick? {
      ArrivalStep(env, w, a);
    } else if a.Publish? || a.Fail? {
      FinishingStep(env, w, a);
    } else if a.Advance? || a.Record? || a.FailOrder? {
      OrderStep(env, w, a);
    } else if a.Reconcile? || a.Note? || a.Fill? {
      VenueStep(env, w, a);
    } else {
      LocalStep(env, w, a);
    }
  }

  lemma ArrivalStep(env: Env, w: World, a: Action)
    requires Inv(w) && (a.ClaimBatch? || a.Tick?)
    ensures Inv(Step(env, w, a)) && Step(env, w, a).db.orders == w.db.orders
    ensures MessagesAdvance(w.db, Step(env, w, a).db)
  {
    hide Inv;
    if a.Tick? {
      TickKeeps(w, w.now + a.seconds);
    } else if AllDue(w.db, a.chosen, w.now) {
      ClaimChange(w, a.chosen, a.worker, a.leaseSeconds);
    }
  }

  /** Reconciliation, notes and fills change orders behind the workers' backs. */
  lemma VenueStep(env: Env, w: World, a: Action)
    requires Inv(w) && (a.Reconcile? || a.Note? || a.Fill?)
    ensures Inv(Step(env, w, a)) && OrdersAdvance(w.db, Step(env, w, a).db) && Step(env, w, a).db.outbox == w.db.outbox
  {
    hide Inv, TransitionOrder, RecordFill, ReconcileOrder;
    if a.Reconcile? {
      TransitionAdvances(env, w.db, a.orderId, a.remote, a.actor, a.payload, a.marketOrderId);
    } else if a.Note? {
      NoteAdvances(env, w.db, a.orderId, a.outcome, a.actor, a.payload);
    } else {
      FillAdvances(env, w.db, a.tradeId, a.orderId, a.marketTradeId, a.quantityKw, a.pricePerKwh, a.actor, a.payload);
    }
    OrderChange(w, Step(env, w, a).db);
  }

  lemma TickKeeps(w: World, now: int)
    requires Inv(w)
    ensures Inv(w.(now := now))
  {
    var v := w.(now := now);
    forall t | t in v.jobs ensures JobOk(v, t) { assert JobOk(w, t); }
    forall i | 0 <= i < |v.calls| ensures CallOk(v, i) { assert CallOk(w, i); }
  }

  // ---------------------------------------------------------------------------------------
  // Main results, over every run
  // ---------------------------------------------------------------------------------------

  lemma {:induction false} RunKeeps(env: Env, w: World, actions: seq<Action>, k: nat)
    requires Initial(w) && k <= |actions|
    ensures Inv(Run(env, w, actions, k))
  {
    if k > 0 {
      RunKeeps(env, w, actions, k - 1);
      StepKeeps(env, Run(env, w, actions, k - 1), actions[k - 1]);
    }
  }

  /** Published means submitted: once a message is published, at that moment and at every later one
      the message is unchanged and its order has left draft, ready and submitting. */
  lemma {:induction false} PublishedMeansSubmitted(env: Env, w: World, actions: seq<Action>, i: nat, k: nat, id: string)
    requires Initial(w) && i <= k <= |actions|
    requires var v := Run(env, w, actions, i); id in v.db.outbox && v.db.outbox[id].status == Published
    ensures var v, u := Run(env, w, actions, i), Run(env, w, actions, k);
            && id in u.db.outbox && u.db.outbox[id] == v.db.outbox[id]
            && OrderLeft(u.db, u.db.outbox[id].orderId)
    decreases k - i
  {
    hide Step, Initial;
    RunKeeps(env, w, actions, k);
    var u := Run(env, w, actions, k);
    if i < k {
      PublishedMeansSubmitted(env, w, actions, i, k - 1, id);
      RunKeeps(env, w, actions, k - 1);
      var before := Run(env, w, actions, k - 1);
      StepKeeps(env, before, actions[k - 1]);
      assert MessageAdvances(before.db, u.db, id);
    }
    assert MessageOk(u.db, id);
  }

  /** A dead-lettered message stays exactly as it is, with all its attempts used. */
  lemma {:induction false} DeadLetterIsFinal(env: Env, w: World, actions: seq<Action>, i: nat, k: nat, id: string)
    requires Initial(w) && i <= k <= |actions|
    requires var v := Run(env, w, actions, i); id in v.db.outbox && v.db.outbox[id].status == DeadLetter
    ensures var v, u := Run(env, w, actions, i), Run(env, w, actions, k);
            && id in u.db.outbox && u.db.outbox[id] == v.db.outbox[id]
            && u.db.outbox[id].attempts == u.db.outbox[id].maxAttempts
    decreases k - i
  {
    hide Step, Initial;
    RunKeeps(env, w, actions, k);
    var u := Run(env, w, actions, k);
    if i < k {
      DeadLetterIsFinal(env, w, actions, i, k - 1, id);
      RunKeeps(env, w, actions, k - 1);
      var before := Run(env, w, actions, k - 1);
      StepKeeps(env, before, actions[k - 1]);
      assert MessageAdvances(before.db, u.db, id);
    }
    assert MessageOk(u.db, id);
  }

  /** Orders never come back: a terminal status, once reached, is kept. */
  lemma {:induction false} TerminalIsFinal(env: Env, w: World, actions: seq<Action>, i: nat, k: nat, id: string)
    requires Initial(w) && i <= k <= |actions|
    requires var v := Run(env, w, actions, i); id in v.db.orders && Terminal(v.db.orders[id].status)
    ensures var v, u := Run(env, w, actions, i), Run(env, w, actions, k);
            id in u.db.orders && u.db.orders[id].status == v.db.orders[id].status
    decreases k - i
  {
    hide Step, Initial, Inv;
    if i < k {
      TerminalIsFinal(env, w, actions, i, k - 1, id);
      RunKeeps(env, w, actions, k - 1);
      var before, u := Run(env, w, actions, k - 1), Run(env, w, actions, k);
      StepKeeps(env, before, actions[k - 1]);
      assert OrderAdvances(before.db, u.db, id);
    }
  }

  /** Venue calls made for one message among the first k. */
  function CallCount(calls: seq<Call>, id: string, k: nat): nat
    requires k <= |calls|
  {
    if k == 0 then 0 else CallCount(calls, id, k - 1) + (if calls[k - 1].ticket.messageId == id then 1 else 0)
  }

  ghost function CalledAttempts(calls: seq<Call>, id: string, k: nat): set<nat>
    requires k <= |calls|
  {
    set i | 0 <= i < k && calls[i].ticket.messageId == id :: calls[i].ticket.attempt
  }

  lemma {:induction false} CallsAreAttempts(calls: seq<Call>, id: string, k: nat)
    requires k <= |calls| && CallsDistinct(calls)
    ensures CallCount(calls, id, k) == |CalledAttempts(calls, id, k)|
  {
    if k == 0 {
      assert CalledAttempts(calls, id, 0) == {};
    } else {
      CallsAreAttempts(calls, id, k - 1);
      var before, after := CalledAttempts(calls, id, k - 1), CalledAttempts(calls, id, k);
      var c := calls[k - 1];
      if c.ticket.messageId == id {
        assert after == before + {c.ticket.attempt};
        assert c.ticket.attempt !in before;
      } else {
        assert after == before;
      }
    }
  }

  lemma {:induction false} UpTo(n: nat, s: set<nat>)
    requires forall x :: x in s ==> 1 <= x <= n
    ensures |s| <= n
  {
    if n == 0 {
      assert s == {};
    } else {
      UpTo(n - 1, s - {n});
      assert s <= (s - {n}) + {n};
    }
  }

  /** Under every interleaving: no more venue calls than attempts, no more attempts than allowed, and
      every call for an order carries that order's one client id. */
  lemma CallsAreBounded(env: Env, w: World, actions: seq<Action>, k: nat, id: string)
    requires Initial(w) && k <= |actions| && id in Run(env, w, actions, k).db.outbox
    ensures var u := Run(env, w, actions, k);
            var m := u.db.outbox[id];
            && CallCount(u.calls, id, |u.calls|) <= m.attempts <= m.maxAttempts
            && (forall i :: 0 <= i < |u.calls| && u.calls[i].ticket.messageId == id ==>
                  m.orderId in u.db.orders && u.calls[i].clientOrderId == u.db.orders[m.orderId].clientOrderId)
  {
    hide Step, Initial;
    RunKeeps(env, w, actions, k);
    var u := Run(env, w, actions, k);
    assert MessageOk(u.db, id);
    forall i | 0 <= i < |u.calls| && u.calls[i].ticket.messageId == id
      ensures 1 <= u.calls[i].ticket.attempt <= u.db.outbox[id].attempts
      ensures var m := u.db.outbox[id];
              m.orderId in u.db.orders && u.calls[i].clientOrderId == u.db.orders[m.orderId].clientOrderId
    {
      assert CallOk(u, i);
    }
    CallsAreAttempts(u.calls, id, |u.calls|);
    UpTo(u.db.outbox[id].attempts, CalledAttempts(u.calls, id, |u.calls|));
  }
}
