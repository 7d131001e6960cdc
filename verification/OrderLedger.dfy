/** Market orders and their hash-chained event log (vpp_repository.py), with the status machine of
    vpp_trading.py. Each function is one database transaction on the rows it touches. */
module OrderLedger {
  import opened Wrappers

  datatype Error =
    | UnknownOrder
    | InvalidTransition
    | NotFillable
    | NothingToFill
    | NegativePrice
    | InvalidQuantity
    | ZeroDivision
    | DuplicateKey
    | UnknownMessage
    | LeaseLost

  type Outcome<+T> = Result<T, Error>

  datatype Status =
    | Draft | RiskRejected | Ready | Submitting | Submitted | PartiallyFilled | Filled
    | CancelPending | Cancelled | Rejected | Expired | Failed

  /** ORDER_TRANSITIONS. */
  function Transitions(s: Status): set<Status> {
    match s
    case Draft => {RiskRejected, Ready}
    case Ready => {Submitting, Cancelled, Expired}
    case Submitting => {Submitted, Rejected, Failed}
    case Submitted => {PartiallyFilled, Filled, CancelPending, Cancelled, Rejected, Expired, Failed}
    case PartiallyFilled => {PartiallyFilled, Filled, CancelPending, Cancelled, Expired, Failed}
    case CancelPending => {Cancelled, PartiallyFilled, Filled, Failed}
    case RiskRejected => {}
    case Filled => {}
    case Cancelled => {}
    case Rejected => {}
    case Expired => {}
    case Failed => {}
  }

  predicate Terminal(s: Status) { Transitions(s) == {} }

  /** The order has been taken past submission. */
  predicate Left(s: Status) { s !in {Draft, Ready, Submitting} }

  datatype Reconciliation = Matched | Mismatch | Unknown | NotApplicable

  datatype Mark = At(status: Status) | Reconciled(outcome: Reconciliation)

  datatype EventKind = RiskDecision | StatusTransition | TradeFill | ReconciliationNote

  type Digest = string

  datatype EventBody = EventBody(orderId: string, sequenceNo: nat, kind: EventKind, from: Option<Status>, to: Mark,
                                 actor: string, payload: string, previousHash: Option<Digest>)

  datatype Event = Event(body: EventBody, hash: Digest)

  /** The hash of an event body is a parameter of the model. */
  type Hasher = EventBody -> Digest

  datatype Allocation = Allocation(stationId: string, targetKw: real, baselineKw: real)

  datatype Order = Order(
    id: string, clientOrderId: string, idempotencyKey: string, quantityKw: real, allocation: seq<Allocation>,
    status: Status, filledKw: real, averagePrice: Option<real>, marketOrderId: Option<string>,
    reconciliation: Option<Reconciliation>, events: seq<Event>)

  // ---------------------------------------------------------------------------------------
  // Transactions on one order
  // ---------------------------------------------------------------------------------------

  /** Append an event with the next sequence number, linked to the hash of the last one. */
  function Append(h: Hasher, id: string, events: seq<Event>, kind: EventKind, from: Option<Status>, to: Mark,
                  actor: string, payload: string): seq<Event>
  {
    var n := |events|;
    var sequence := if n == 0 then 1 else events[n - 1].body.sequenceNo + 1;
    var previous := if n == 0 then None else Some(events[n - 1].hash);
    var body := EventBody(id, sequence, kind, from, to, actor, payload, previous);
    events + [Event(body, h(body))]
  }

  /** A freshly inserted order: its risk decision is the first event, taken from draft. */
  function NewOrder(h: Hasher, id: string, clientOrderId: string, idempotencyKey: string, quantityKw: real,
                    allocation: seq<Allocation>, approved: bool, actor: string, decision: string): Order
  {
    var status := if approved then Ready else RiskRejected;
    Order(id, clientOrderId, idempotencyKey, quantityKw, allocation, status, 0.0, None, None, None,
          Append(h, id, [], RiskDecision, Some(Draft), At(status), actor, decision))
  }

  /** transition_market_order. */
  function Transition(h: Hasher, o: Order, target: Status, actor: string, payload: string,
                      marketOrderId: Option<string>): (r: Outcome<Order>)
  {
    if target !in Transitions(o.status) then Err(InvalidTransition)
    else
      Ok(o.(status := target,
            marketOrderId := if marketOrderId.Some? then marketOrderId else o.marketOrderId,
            events := Append(h, o.id, o.events, StatusTransition, Some(o.status), At(target), actor, payload)))
  }

  /** mark_order_reconciled: notes the outcome and leaves the status alone. */
  function MarkReconciled(h: Hasher, o: Order, outcome: Reconciliation, actor: string, payload: string): Order {
    o.(reconciliation := Some(outcome),
       events := Append(h, o.id, o.events, ReconciliationNote, None, Reconciled(outcome), actor, payload))
  }

  // ---------------------------------------------------------------------------------------
  // What the log says
  // ---------------------------------------------------------------------------------------

  predicate StatusBearing(e: Event) { e.body.from.Some? && e.body.to.At? }

  /** The status the log ends in, None if some status-bearing event does not continue legally from
      where the previous one left off. Logs start at draft. */
  function Replay(events: seq<Event>, k: nat): Option<Status>
    requires k <= |events|
  {
    if k == 0 then Some(Draft)
    else
      var s := Replay(events, k - 1);
      var e := events[k - 1];
      if !StatusBearing(e) then s
      else if s == e.body.from && e.body.to.status in Transitions(e.body.from.value) then Some(e.body.to.status)
      else None
  }

  ghost predicate LinkedAt(h: Hasher, id: string, events: seq<Event>, i: nat)
    requires i < |events|
  {
    var b := events[i].body;
    && b.orderId == id
    && b.sequenceNo == i + 1
    && b.previousHash == (if i == 0 then None else Some(events[i - 1].hash))
    && events[i].hash == h(b)
  }

  /** Gapless sequence numbers, previous-hash links and correct hashes. */
  ghost predicate Chained(h: Hasher, id: string, events: seq<Event>) {
    forall i :: 0 <= i < |events| ==> LinkedAt(h, id, events, i)
  }

  /** The order's log is chained and replays to its current status. */
  ghost predicate Sourced(h: Hasher, o: Order) {
    Chained(h, o.id, o.events) && |o.events| >= 1 && Replay(o.events, |o.events|) == Some(o.status)
  }

  // ---------------------------------------------------------------------------------------
  // Event sourcing is kept by every transaction
  // ---------------------------------------------------------------------------------------

  lemma AppendKeepsChain(h: Hasher, id: string, events: seq<Event>, kind: EventKind, from: Option<Status>, to: Mark,
                         actor: string, payload: string)
    requires Chained(h, id, events)
    ensures Chained(h, id, Append(h, id, events, kind, from, to, actor, payload))
  {
    var after := Append(h, id, events, kind, from, to, actor, payload);
    if |events| > 0 { assert LinkedAt(h, id, events, |events| - 1); }
    forall i | 0 <= i < |after| ensures LinkedAt(h, id, after, i) {
      if i < |events| { assert LinkedAt(h, id, events, i); }
    }
  }

  lemma {:induction false} ReplayPrefix(events: seq<Event>, more: seq<Event>, k: nat)
    requires k <= |events| && events <= more
    ensures Replay(events, k) == Replay(more, k)
  {
    if k > 0 { ReplayPrefix(events, more, k - 1); }
  }

  lemma AppendReplay(h: Hasher, id: string, events: seq<Event>, kind: EventKind, from: Option<Status>, to: Mark,
                     actor: string, payload: string)
    ensures var after := Append(h, id, events, kind, from, to, actor, payload);
            && |after| == |events| + 1
            && Replay(after, |after|) ==
                 var s := Replay(events, |events|);
                 if from.None? || to.Reconciled? then s
                 else if s == from && to.status in Transitions(from.value) then Some(to.status) else None
  {
    ReplayPrefix(events, Append(h, id, events, kind, from, to, actor, payload), |events|);
  }

  lemma NewOrderSourced(h: Hasher, id: string, clientOrderId: string, idempotencyKey: string, quantityKw: real,
                        allocation: seq<Allocation>, approved: bool, actor: string, decision: string)
    ensures Sourced(h, NewOrder(h, id, clientOrderId, idempotencyKey, quantityKw, allocation, approved, actor,
                                decision))
  {
    var status := if approved then Ready else RiskRejected;
    AppendKeepsChain(h, id, [], RiskDecision, Some(Draft), At(status), actor, decision);
    AppendReplay(h, id, [], RiskDecision, Some(Draft), At(status), actor, decision);
  }

  /** A transition that succeeds keeps the log chained and replaying to the new status. */
  lemma TransitionSourced(h: Hasher, o: Order, target: Status, actor: string, payload: string,
                          marketOrderId: Option<string>)
    requires Sourced(h, o) && Transition(h, o, target, actor, payload, marketOrderId).Ok?
    ensures Sourced(h, Transition(h, o, target, actor, payload, marketOrderId).value)
  {
    AppendKeepsChain(h, o.id, o.events, StatusTransition, Some(o.status), At(target), actor, payload);
    AppendReplay(h, o.id, o.events, StatusTransition, Some(o.status), At(target), actor, payload);
  }

  /** Reconciliation notes leave the replay, and so the status, unchanged. */
  lemma MarkReconciledSourced(h: Hasher, o: Order, outcome: Reconciliation, actor: string, payload: string)
    requires Sourced(h, o)
    ensures var r := MarkReconciled(h, o, outcome, actor, payload);
            Sourced(h, r) && Replay(r.events, |r.events|) == Replay(o.events, |o.events|)
  {
    AppendKeepsChain(h, o.id, o.events, ReconciliationNote, None, Reconciled(outcome), actor, payload);
    AppendReplay(h, o.id, o.events, ReconciliationNote, None, Reconciled(outcome), actor, payload);
  }

  // ---------------------------------------------------------------------------------------
  // Tamper evidence
  // ---------------------------------------------------------------------------------------

  ghost predicate CollisionFree(h: Hasher) {
    forall a: EventBody, b: EventBody :: h(a) == h(b) ==> a == b
  }

  /** With a collision-free hash, two chained logs that end in the same hash are the same log, so
      no event can be altered, dropped or inserted without changing the last hash. */
  lemma {:induction false} LastHashFixesLog(h: Hasher, id: string, a: seq<Event>, b: seq<Event>)
    requires CollisionFree(h) && Chained(h, id, a) && Chained(h, id, b)
    requires |a| > 0 && |b| > 0 && a[|a| - 1].hash == b[|b| - 1].hash
    ensures a == b
  {
    var m, n := |a|, |b|;
    assert LinkedAt(h, id, a, m - 1) && LinkedAt(h, id, b, n - 1);
    assert a[m - 1].body == b[n - 1].body;
    if m > 1 {
      var c, d := a[..m - 1], b[..n - 1];
      forall i | 0 <= i < m - 1 ensures LinkedAt(h, id, c, i) { assert LinkedAt(h, id, a, i); }
      forall i | 0 <= i < n - 1 ensures LinkedAt(h, id, d, i) { assert LinkedAt(h, id, b, i); }
      LastHashFixesLog(h, id, c, d);
      assert a == c + [a[m - 1]] && b == d + [b[n - 1]];
    } else {
      assert a == [a[0]] && b == [b[0]];
    }
  }

  /** Truncating a chained log always loses its last hash. */
  lemma TruncationShows(h: Hasher, id: string, a: seq<Event>, k: nat)
    requires CollisionFree(h) && Chained(h, id, a) && 0 < k < |a|
    ensures a[k - 1].hash != a[|a| - 1].hash
  {
    assert LinkedAt(h, id, a, k - 1) && LinkedAt(h, id, a, |a| - 1);
  }

  // ---------------------------------------------------------------------------------------
  // Status machine facts
  // ---------------------------------------------------------------------------------------

  /** No transition leads back before submission, and terminal statuses have none at all. */
  lemma LeavingIsFinal(s: Status, t: Status)
    requires t in Transitions(s)
    ensures Left(s) ==> Left(t)
    ensures t != Draft && !Terminal(s)
    ensures t == Submitting ==> s == Ready
    ensures t == Ready ==> s == Draft
  {}
}
