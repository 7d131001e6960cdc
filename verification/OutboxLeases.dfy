/** Leases of the publishing protocol: while one runs, nobody but its holder ends it and nobody claims the
    message again; once it has run out anybody may, and a retry is not claimed before its time. */
module OutboxLeases {
  import opened OrderLedger
  import opened TradingDb
  import opened OutboxProtocol
  import opened Wrappers

  /** The worker holds the message, and its lease ends then. */
  ghost predicate HeldBy(db: Db, id: string, worker: string, until: int) {
    && id in db.outbox
    && db.outbox[id].status == Publishing
    && db.outbox[id].lockedBy == Some(worker) && db.outbox[id].leaseExpiresAt == Some(until)
  }

  /** A job of this worker finishes the message. */
  ghost predicate Ends(w: World, a: Action, id: string, worker: string) {
    (a.Publish? || a.Fail?) && a.t.messageId == id && a.t in w.jobs && w.jobs[a.t].worker == worker
  }

  /** The message stayed as it was after i steps until some step before the k-th, with which a job of its
      holder ended it. */
  ghost predicate EndedBetween(env: Env, w: World, actions: seq<Action>, i: nat, k: nat, id: string, worker: string)
    requires i <= k <= |actions| && id in Run(env, w, actions, i).db.outbox
  {
    exists j :: i <= j < k && EndedAt(env, w, actions, i, j, id, worker)
  }

  ghost predicate EndedAt(env: Env, w: World, actions: seq<Action>, i: nat, j: nat, id: string, worker: string)
    requires i <= j < |actions| && id in Run(env, w, actions, i).db.outbox
  {
    var first, before, after := Run(env, w, actions, i).db, Run(env, w, actions, j), Run(env, w, actions, j + 1).db;
    && id in before.db.outbox && before.db.outbox[id] == first.outbox[id]
    && Ends(before, actions[j], id, worker)
    && id in after.outbox && after.outbox[id].status != Publishing && after.outbox[id].lockedBy == None
  }

  // ---------------------------------------------------------------------------------------
  // One step
  // ---------------------------------------------------------------------------------------

  /** A step that ends while a lease runs leaves the row alone, unless a job of the holder ends it. */
  lemma LeaseStep(env: Env, w: World, a: Action, id: string, worker: string, until: int)
    requires HeldBy(w.db, id, worker, until) && Step(env, w, a).now <= until
    ensures var v := Step(env, w, a);
            && id in v.db.outbox
            && (v.db.outbox[id] == w.db.outbox[id] ||
                (Ends(w, a, id, worker) && v.db.outbox[id].status != Publishing && v.db.outbox[id].lockedBy == None))
  {
    hide TransitionOrder, RecordFill, ReconcileOrder, CreateOrder;
    if a.Create? {
      CreateAdds(env, w.db, a.orderId, a.messageId, a.key, a.quantityKw, a.allocation, a.approved, a.actor, a.decision,
                 w.now);
    } else if a.Advance? || a.Record? || a.FailOrder? {
      OrderStepLeavesOutbox(env, w, a);
    } else if a.Reconcile? || a.Note? || a.Fill? {
      VenueStepLeavesOutbox(env, w, a);
    }
  }

  lemma OrderStepLeavesOutbox(env: Env, w: World, a: Action)
    requires a.Advance? || a.Record? || a.FailOrder?
    ensures Step(env, w, a).db.outbox == w.db.outbox
  {
    hide Transition;
  }

  lemma VenueStepLeavesOutbox(env: Env, w: World, a: Action)
    requires a.Reconcile? || a.Note? || a.Fill?
    ensures Step(env, w, a).db.outbox == w.db.outbox
  {
    hide Transition, MarkReconciled, FilledOrder, Scheduled, TradeRecorded, TradeIdUsed;
  }

  /** A claim takes a message by leasing it to the worker for so many seconds from now, with one more
      attempt, and every other message stays. */
  lemma ClaimLeases(env: Env, w: World, a: Action, id: string)
    requires a.ClaimBatch? && id in w.db.outbox && Step(env, w, a).db.outbox[id] != w.db.outbox[id]
    ensures var v := Step(env, w, a);
            && HeldBy(v.db, id, a.worker, w.now + a.leaseSeconds) && v.now == w.now
            && v.db.outbox[id].attempts == w.db.outbox[id].attempts + 1 <= w.db.outbox[id].maxAttempts
            && v.db.outbox[id].orderId == w.db.outbox[id].orderId
  {}

  // ---------------------------------------------------------------------------------------
  // Over every run
  // ---------------------------------------------------------------------------------------

  lemma {:induction false} ClockNeverFalls(env: Env, w: World, actions: seq<Action>, i: nat, k: nat)
    requires i <= k <= |actions|
    ensures Run(env, w, actions, i).now <= Run(env, w, actions, k).now
    decreases k - i
  {
    if i < k {
      ClockNeverFalls(env, w, actions, i, k - 1);
      StepKeepsClock(env, Run(env, w, actions, k - 1), actions[k - 1]);
    }
  }

  lemma StepKeepsClock(env: Env, w: World, a: Action)
    ensures w.now <= Step(env, w, a).now
  {
    hide TransitionOrder, RecordFill, ReconcileOrder, CreateOrder, Finish;
  }

  /** Main result: while the clock has not passed the end of a lease, the message is as its holder claimed
      it, or a job of the holder has ended it. */
  lemma {:induction false} LeaseHolds(env: Env, w: World, actions: seq<Action>, i: nat, k: nat, id: string,
                                      worker: string, until: int)
    requires i <= k <= |actions| && HeldBy(Run(env, w, actions, i).db, id, worker, until)
    requires Run(env, w, actions, k).now <= until
    ensures var v, u := Run(env, w, actions, i), Run(env, w, actions, k);
            || (id in u.db.outbox && u.db.outbox[id] == v.db.outbox[id])
            || EndedBetween(env, w, actions, i, k, id, worker)
    decreases k - i
  {
    hide Step, EndedAt;
    if i < k {
      ClockNeverFalls(env, w, actions, k - 1, k);
      LeaseHolds(env, w, actions, i, k - 1, id, worker, until);
      var v, before := Run(env, w, actions, i), Run(env, w, actions, k - 1);
      if id in before.db.outbox && before.db.outbox[id] == v.db.outbox[id] {
        LeaseStep(env, before, actions[k - 1], id, worker, until);
        if Run(env, w, actions, k).db.outbox[id] != v.db.outbox[id] {
          EndsHere(env, w, actions, i, k - 1, id, worker);
        }
      }
    }
  }

  lemma EndsHere(env: Env, w: World, actions: seq<Action>, i: nat, j: nat, id: string, worker: string)
    requires i <= j < |actions| && id in Run(env, w, actions, i).db.outbox
    requires var first, before, after := Run(env, w, actions, i).db, Run(env, w, actions, j),
                 Run(env, w, actions, j + 1).db;
             && id in before.db.outbox && before.db.outbox[id] == first.outbox[id]
             && Ends(before, actions[j], id, worker)
             && id in after.outbox && after.outbox[id].status != Publishing && after.outbox[id].lockedBy == None
    ensures EndedAt(env, w, actions, i, j, id, worker)
  {}

  /** Step i is a claim that takes the message. */
  ghost predicate Takes(env: Env, w: World, actions: seq<Action>, i: nat, id: string)
    requires i < |actions|
  {
    var before, after := Run(env, w, actions, i).db, Run(env, w, actions, i + 1).db;
    actions[i].ClaimBatch? && id in before.outbox && id in after.outbox && after.outbox[id] != before.outbox[id]
  }

  /** From a claim on, for as many seconds as it leases: the message stays as the worker claimed it, until a
      job of that worker ends it. */
  lemma LeaseIsExclusive(env: Env, w: World, actions: seq<Action>, i: nat, k: nat, id: string)
    requires i < k <= |actions| && Takes(env, w, actions, i, id)
    requires Run(env, w, actions, k).now <= Run(env, w, actions, i).now + actions[i].leaseSeconds
    ensures var v, u := Run(env, w, actions, i + 1), Run(env, w, actions, k);
            && HeldBy(v.db, id, actions[i].worker, Run(env, w, actions, i).now + actions[i].leaseSeconds)
            && v.db.outbox[id].attempts == Run(env, w, actions, i).db.outbox[id].attempts + 1
            && (|| (id in u.db.outbox && u.db.outbox[id] == v.db.outbox[id])
                || EndedBetween(env, w, actions, i + 1, k, id, actions[i].worker))
  {
    hide Step, EndedBetween;
    ClaimLeases(env, Run(env, w, actions, i), actions[i], id);
    LeaseHolds(env, w, actions, i + 1, k, id, actions[i].worker,
               Run(env, w, actions, i).now + actions[i].leaseSeconds);
  }

  /** So two claims of one message never overlap: before the second, a job of the first claim's worker has
      ended it, or its lease has run out. */
  lemma ClaimsDoNotOverlap(env: Env, w: World, actions: seq<Action>, i: nat, j: nat, id: string)
    requires i < j < |actions| && Takes(env, w, actions, i, id) && Takes(env, w, actions, j, id)
    ensures || Run(env, w, actions, j).now > Run(env, w, actions, i).now + actions[i].leaseSeconds
            || EndedBetween(env, w, actions, i + 1, j, id, actions[i].worker)
  {
    hide Step, EndedBetween;
    var until := Run(env, w, actions, i).now + actions[i].leaseSeconds;
    if Run(env, w, actions, j).now <= until {
      LeaseIsExclusive(env, w, actions, i, j, id);
      ClaimLeases(env, Run(env, w, actions, j), actions[j], id);
      var v := Run(env, w, actions, j);
      if v.db.outbox[id] == Run(env, w, actions, i + 1).db.outbox[id] {
        LeaseStep(env, v, actions[j], id, actions[i].worker, until);
      }
    }
  }

  // ---------------------------------------------------------------------------------------
  // Recovery and retries
  // ---------------------------------------------------------------------------------------

  /** A message whose holder has let the lease run out is not lost: with an attempt left, anyone can
      claim it. */
  lemma ExpiredIsReclaimed(env: Env, w: World, id: string, holder: string, until: int, worker: string, seconds: nat)
    requires HeldBy(w.db, id, holder, until) && until < w.now
    requires w.db.outbox[id].attempts < w.db.outbox[id].maxAttempts
    ensures var v := Step(env, w, ClaimBatch({id}, worker, seconds));
            && HeldBy(v.db, id, worker, w.now + seconds)
            && Ticket(id, w.db.outbox[id].attempts + 1) in v.jobs
            && v.jobs[Ticket(id, w.db.outbox[id].attempts + 1)] == Job(worker, Claimed, None, "")
  {}

  /** The message waits, unlocked, for its time. */
  ghost predicate WaitsUntil(db: Db, id: string, available: int) {
    && id in db.outbox && db.outbox[id].status in {Pending, RetryLater}
    && db.outbox[id].lockedBy == None && db.outbox[id].availableAt == available
  }

  lemma WaitStep(env: Env, w: World, a: Action, id: string, available: int)
    requires WaitsUntil(w.db, id, available) && Step(env, w, a).now < available
    ensures id in Step(env, w, a).db.outbox && Step(env, w, a).db.outbox[id] == w.db.outbox[id]
  {
    hide TransitionOrder, RecordFill, ReconcileOrder, CreateOrder;
    if a.Create? {
      CreateAdds(env, w.db, a.orderId, a.messageId, a.key, a.quantityKw, a.allocation, a.approved, a.actor, a.decision,
                 w.now);
    } else if a.Advance? || a.Record? || a.FailOrder? {
      OrderStepLeavesOutbox(env, w, a);
    } else if a.Reconcile? || a.Note? || a.Fill? {
      VenueStepLeavesOutbox(env, w, a);
    }
  }

  /** Until then nothing happens to it in any run. */
  lemma {:induction false} WaitHolds(env: Env, w: World, actions: seq<Action>, i: nat, k: nat, id: string,
                                     available: int)
    requires i <= k <= |actions| && WaitsUntil(Run(env, w, actions, i).db, id, available)
    requires Run(env, w, actions, k).now < available
    ensures var v, u := Run(env, w, actions, i), Run(env, w, actions, k);
            id in u.db.outbox && u.db.outbox[id] == v.db.outbox[id]
    decreases k - i
  {
    hide Step;
    if i < k {
      ClockNeverFalls(env, w, actions, k - 1, k);
      WaitHolds(env, w, actions, i, k - 1, id, available);
      WaitStep(env, Run(env, w, actions, k - 1), actions[k - 1], id, available);
    }
  }

  /** After a failed delivery with attempts left, the message rests for thirty seconds. */
  lemma FailureRests(env: Env, w: World, actions: seq<Action>, i: nat, k: nat)
    requires i < k <= |actions| && actions[i].Fail?
    requires var v, t := Run(env, w, actions, i), actions[i].t;
             && t in v.jobs && v.jobs[t].pc == MustFail && t.messageId in v.db.outbox
             && v.db.outbox[t.messageId].lockedBy == Some(v.jobs[t].worker)
             && v.db.outbox[t.messageId].attempts < v.db.outbox[t.messageId].maxAttempts
    requires Run(env, w, actions, k).now < Run(env, w, actions, i).now + 30
    ensures var id := actions[i].t.messageId;
            var after, u := Run(env, w, actions, i + 1).db, Run(env, w, actions, k).db;
            && WaitsUntil(after, id, Run(env, w, actions, i).now + 30) && after.outbox[id].status == RetryLater
            && id in u.outbox && u.outbox[id] == after.outbox[id]
  {
    var v, t := Run(env, w, actions, i), actions[i].t;
    FailSchedules(env, v, t);
    hide Step;
    WaitHolds(env, w, actions, i + 1, k, t.messageId, v.now + 30);
  }

  lemma FailSchedules(env: Env, w: World, t: Ticket)
    requires t in w.jobs && w.jobs[t].pc == MustFail && t.messageId in w.db.outbox
    requires w.db.outbox[t.messageId].lockedBy == Some(w.jobs[t].worker)
    requires w.db.outbox[t.messageId].attempts < w.db.outbox[t.messageId].maxAttempts
    ensures var v := Step(env, w, Fail(t));
            WaitsUntil(v.db, t.messageId, w.now + 30) && v.db.outbox[t.messageId].status == RetryLater
  {}

  /** And when its time has come it can be claimed, as can the message of a new order at once. */
  lemma DueIsClaimed(env: Env, w: World, id: string, available: int, worker: string, seconds: nat)
    requires WaitsUntil(w.db, id, available) && available <= w.now
    requires w.db.outbox[id].attempts < w.db.outbox[id].maxAttempts
    ensures var v := Step(env, w, ClaimBatch({id}, worker, seconds));
            HeldBy(v.db, id, worker, w.now + seconds) && Ticket(id, w.db.outbox[id].attempts + 1) in v.jobs
  {}

  lemma NewIsDue(env: Env, w: World, a: Action)
    requires a.Create? && a.approved && a.orderId !in w.db.orders && a.messageId !in w.db.outbox && a.quantityKw > 0.0
    requires !KeyUsed(w.db, a.key) && !ClientIdUsed(w.db, env.clientOrderId(a.key))
    ensures var v := Step(env, w, a);
            && WaitsUntil(v.db, a.messageId, w.now) && v.db.outbox[a.messageId].orderId == a.orderId
            && v.db.outbox[a.messageId].attempts == 0 && v.db.outbox[a.messageId].maxAttempts == 8
  {
    hide Append, KeyUsed, ClientIdUsed;
  }

  /** With all attempts used it is never claimed again. */
  lemma UsedUpIsNotClaimed(env: Env, w: World, a: Action, id: string)
    requires a.ClaimBatch? && id in w.db.outbox && w.db.outbox[id].attempts >= w.db.outbox[id].maxAttempts
    ensures Step(env, w, a).db.outbox[id] == w.db.outbox[id]
  {}
}
