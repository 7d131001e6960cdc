/** The settlement workflow of vpp_repository.py: maker-checker approval, dispute, export, payment and
    reversal of a batch, with its append-only log. */
module Settlement {
  import opened Wrappers

  datatype Error =
    | UnknownBatch
    | InvalidTransition
    | CreatorCannotApprove
    | NoOpenDispute
    | InvalidFormat
    | AlreadyExported
    | NoTrades
    | BatchExists
    | DuplicateKey

  type Result<+T> = Wrappers.Result<T, Error>

  datatype Status = Review | Approved | Exported | Paid | Disputed | Failed | Reversed

  /** SETTLEMENT_TRANSITIONS. */
  function Transitions(s: Status): set<Status> {
    match s
    case Review => {Approved, Disputed, Failed}
    case Approved => {Exported, Disputed}
    case Exported => {Paid, Disputed}
    case Disputed => {Review, Failed}
    case Paid => {Reversed}
    case Failed => {}
    case Reversed => {}
  }

  datatype DisputeStatus = Open | Resolved | Rejected

  datatype Dispute = Dispute(status: DisputeStatus, reason: string, raisedBy: string)

  datatype Format = Csv | Json | OtherFormat

  datatype Export = Export(format: Format, destination: string)

  datatype Kind = Calculation | Approval | DisputeRaised | DisputeResolved | ExportMade | Payment | Reversal

  /** A log entry; `amount` is what a payment or reversal moves. */
  datatype Entry = Entry(sequenceNo: nat, kind: Kind, from: Option<Status>, to: Status, actor: string, amount: real)

  /** What a batch settles; the table holds one batch per key. */
  datatype Period = Period(market: string, start: int, end: int)

  datatype Batch = Batch(period: Period, status: Status, createdBy: string, approvedBy: Option<string>,
                         netRevenue: real, disputes: seq<Dispute>, exports: seq<Export>, adjustments: seq<real>,
                         paymentReference: Option<string>, log: seq<Entry>)

  datatype Action =
    | Approve(actor: string)
    | RaiseDispute(actor: string, reason: string)
    | ResolveDispute(actor: string, accepted: bool)
    | MakeExport(actor: string, format: Format, destination: string)
    | MarkPaid(actor: string, reference: string)
    | Reverse(actor: string)

  // ---------------------------------------------------------------------------------------
  // Transactions as functions
  // ---------------------------------------------------------------------------------------

  function Append(log: seq<Entry>, kind: Kind, from: Option<Status>, to: Status, actor: string,
                  amount: real): seq<Entry> {
    var sequence := if log == [] then 1 else log[|log| - 1].sequenceNo + 1;
    log + [Entry(sequence, kind, from, to, actor, amount)]
  }

  /** A freshly calculated batch. */
  function NewBatch(period: Period, actor: string, netRevenue: real): Batch {
    Batch(period, Review, actor, None, netRevenue, [], [], [], None, Append([], Calculation, None, Review, actor, 0.0))
  }

  /** Index of the first open dispute among the first k, k if none. */
  function OpenIndex(d: seq<Dispute>, k: nat): (i: nat)
    requires k <= |d|
    ensures i <= k && (i < k ==> d[i].status == Open)
    ensures i == k ==> forall j :: 0 <= j < k ==> d[j].status != Open
  {
    if k == 0 then 0
    else
      var i := OpenIndex(d, k - 1);
      if i < k - 1 then i else if d[k - 1].status == Open then k - 1 else k
  }

  function Apply(b: Batch, a: Action): Result<Batch> {
    match a
    case Approve(actor) =>
      if Approved !in Transitions(b.status) then Err(InvalidTransition)
      else if b.createdBy == actor then Err(CreatorCannotApprove)
      else Ok(b.(status := Approved, approvedBy := Some(actor),
                 log := Append(b.log, Approval, Some(b.status), Approved, actor, 0.0)))
    case RaiseDispute(actor, reason) =>
      if Disputed !in Transitions(b.status) then Err(InvalidTransition)
      else Ok(b.(status := Disputed, disputes := b.disputes + [Dispute(Open, reason, actor)],
                 log := Append(b.log, DisputeRaised, Some(b.status), Disputed, actor, 0.0)))
    case ResolveDispute(actor, accepted) =>
      var target := if accepted then Review else Failed;
      var i := OpenIndex(b.disputes, |b.disputes|);
      if target !in Transitions(b.status) then Err(InvalidTransition)
      else if i == |b.disputes| then Err(NoOpenDispute)
      else Ok(b.(status := target,
                 disputes := b.disputes[i := b.disputes[i].(status := if accepted then Resolved else Rejected)],
                 log := Append(b.log, DisputeResolved, Some(Disputed), target, actor, 0.0)))
    case MakeExport(actor, format, destination) =>
      if format == OtherFormat then Err(InvalidFormat)
      else if Exported !in Transitions(b.status) then Err(InvalidTransition)
      else if Export(format, destination) in b.exports then Err(AlreadyExported)
      else Ok(b.(status := Exported, exports := b.exports + [Export(format, destination)],
                 log := Append(b.log, ExportMade, Some(Approved), Exported, actor, 0.0)))
    case MarkPaid(actor, reference) =>
      if Paid !in Transitions(b.status) then Err(InvalidTransition)
      else Ok(b.(status := Paid, paymentReference := Some(reference),
                 log := Append(b.log, Payment, Some(Exported), Paid, actor, b.netRevenue)))
    case Reverse(actor) =>
      if Reversed !in Transitions(b.status) then Err(InvalidTransition)
      else Ok(b.(status := Reversed, adjustments := b.adjustments + [-b.netRevenue],
                 log := Append(b.log, Reversal, Some(Paid), Reversed, actor, -b.netRevenue)))
  }

  /** A refused action rolls back and leaves the batch as it was. */
  function Step(b: Batch, a: Action): Batch { if Apply(b, a).Ok? then Apply(b, a).value else b }

  function Run(b: Batch, actions: seq<Action>, k: nat): Batch
    requires k <= |actions|
  {
    if k == 0 then b else Step(Run(b, actions, k - 1), actions[k - 1])
  }

  // ---------------------------------------------------------------------------------------
  // Invariant
  // ---------------------------------------------------------------------------------------

  function OpenCount(d: seq<Dispute>, k: nat): nat
    requires k <= |d|
  {
    if k == 0 then 0 else OpenCount(d, k - 1) + (if d[k - 1].status == Open then 1 else 0)
  }

  /** Money moved by the first k log entries. */
  function Cash(log: seq<Entry>, k: nat): real
    requires k <= |log|
  {
    if k == 0 then 0.0 else Cash(log, k - 1) + log[k - 1].amount
  }

  function Payments(log: seq<Entry>, k: nat): nat
    requires k <= |log|
  {
    if k == 0 then 0 else Payments(log, k - 1) + (if log[k - 1].kind == Payment then 1 else 0)
  }

  /** Status the first k entries lead to, None if some entry does not continue legally. */
  function Replay(log: seq<Entry>, k: nat): Option<Status>
    requires k <= |log|
  {
    if k == 0 then None
    else
      var e := log[k - 1];
      if k == 1 then (if e.from == None && e.to == Review then Some(Review) else None)
      else
        var s := Replay(log, k - 1);
        if s.Some? && e.from == s && e.to in Transitions(s.value) then Some(e.to) else None
  }

  /** The log ends with these kinds of entry. */
  ghost predicate EndsWith(log: seq<Entry>, kinds: seq<Kind>) {
    |kinds| <= |log| && forall i :: 0 <= i < |kinds| ==> log[|log| - |kinds| + i].kind == kinds[i]
  }

  /** How a batch got past review: approved, exported, paid, reversed, in a row. */
  function Approach(s: Status): seq<Kind> {
    match s
    case Approved => [Approval]
    case Exported => [Approval, ExportMade]
    case Paid => [Approval, ExportMade, Payment]
    case Reversed => [Approval, ExportMade, Payment, Reversal]
    case _ => []
  }

  /** Disputes among the first k with this outcome. */
  function Decided(d: seq<Dispute>, k: nat, status: DisputeStatus): nat
    requires k <= |d|
  {
    if k == 0 then 0 else Decided(d, k - 1, status) + (if d[k - 1].status == status then 1 else 0)
  }

  /** Log entries among the first k that close a dispute this way. */
  function Closings(log: seq<Entry>, k: nat, to: Status): nat
    requires k <= |log|
  {
    if k == 0 then 0
    else Closings(log, k - 1, to) + (if log[k - 1].kind == DisputeResolved && log[k - 1].to == to then 1 else 0)
  }

  ghost predicate Inv(b: Batch) {
    && OpenCount(b.disputes, |b.disputes|) == (if b.status == Disputed then 1 else 0)
    && (b.status in {Approved, Exported, Paid, Reversed} ==> b.approvedBy.Some? && b.approvedBy.value != b.createdBy)
    && (forall i :: 0 <= i < |b.log| ==> b.log[i].sequenceNo == i + 1)
    && |b.log| >= 1 && Replay(b.log, |b.log|) == Some(b.status)
    && EndsWith(b.log, Approach(b.status))
    && (Approach(b.status) != [] ==> Some(b.log[|b.log| - |Approach(b.status)|].actor) == b.approvedBy)
    && Cash(b.log, |b.log|) == (if b.status == Paid then b.netRevenue else 0.0)
    && Payments(b.log, |b.log|) == (if b.status in {Paid, Reversed} then 1 else 0)
    && (forall i, j :: 0 <= i < j < |b.exports| ==> b.exports[i] != b.exports[j])
    && b.adjustments == (if b.status == Reversed then [-b.netRevenue] else [])
    && (b.paymentReference.Some? <==> b.status in {Paid, Reversed})
    && Decided(b.disputes, |b.disputes|, Resolved) == Closings(b.log, |b.log|, Review)
    && Decided(b.disputes, |b.disputes|, Rejected) == Closings(b.log, |b.log|, Failed)
  }

  // ---------------------------------------------------------------------------------------
  // Every action keeps it
  // ---------------------------------------------------------------------------------------

  lemma {:induction false} LogPrefix(a: seq<Entry>, b: seq<Entry>, k: nat)
    requires k <= |a| && a <= b
    ensures Cash(a, k) == Cash(b, k) && Payments(a, k) == Payments(b, k) && Replay(a, k) == Replay(b, k)
    ensures forall to :: Closings(a, k, to) == Closings(b, k, to)
  {
    if k > 0 { LogPrefix(a, b, k - 1); }
  }

  lemma AppendFacts(log: seq<Entry>, kind: Kind, from: Option<Status>, to: Status, actor: string, amount: real)
    requires |log| >= 1 && forall i :: 0 <= i < |log| ==> log[i].sequenceNo == i + 1
    ensures var after := Append(log, kind, from, to, actor, amount);
            && |after| == |log| + 1 && log <= after
            && after[|log|] == Entry(|log| + 1, kind, from, to, actor, amount)
            && (forall i :: 0 <= i < |after| ==> after[i].sequenceNo == i + 1)
            && Cash(after, |after|) == Cash(log, |log|) + amount
            && Payments(after, |after|) == Payments(log, |log|) + (if kind == Payment then 1 else 0)
            && (forall s :: Closings(after, |after|, s) ==
                            Closings(log, |log|, s) + (if kind == DisputeResolved && to == s then 1 else 0))
            && (Replay(log, |log|).Some? && Replay(log, |log|) == from && to in Transitions(from.value) ==>
                  Replay(after, |after|) == Some(to))
  {
    LogPrefix(log, Append(log, kind, from, to, actor, amount), |log|);
  }

  lemma EndsWithOne(log: seq<Entry>, kinds: seq<Kind>, e: Entry)
    requires EndsWith(log, kinds)
    ensures EndsWith(log + [e], kinds + [e.kind])
  {
    var after, more := log + [e], kinds + [e.kind];
    forall i | 0 <= i < |more| ensures after[|after| - |more| + i].kind == more[i] {
      if i < |kinds| { assert log[|log| - |kinds| + i].kind == kinds[i]; }
    }
  }

  lemma {:induction false} OpenCountUpdate(d: seq<Dispute>, i: nat, x: Dispute, k: nat)
    requires i < |d| && k <= |d| && d[i].status == Open && x.status != Open
    ensures OpenCount(d[i := x], k) == OpenCount(d, k) - (if i < k then 1 else 0)
    ensures forall s :: s != Open ==> Decided(d[i := x], k, s) ==
                                      Decided(d, k, s) + (if i < k && x.status == s then 1 else 0)
  {
    if k > 0 { OpenCountUpdate(d, i, x, k - 1); }
  }

  lemma {:induction false} OpenCountPrefix(a: seq<Dispute>, b: seq<Dispute>, k: nat)
    requires k <= |a| && a <= b
    ensures OpenCount(a, k) == OpenCount(b, k)
    ensures forall s :: Decided(a, k, s) == Decided(b, k, s)
  {
    if k > 0 { OpenCountPrefix(a, b, k - 1); }
  }

  lemma {:induction false} SomeOpen(d: seq<Dispute>, k: nat)
    requires k <= |d| && OpenCount(d, k) > 0
    ensures OpenIndex(d, k) < k
  {
    if k > 0 && OpenCount(d, k - 1) > 0 { SomeOpen(d, k - 1); }
  }

  /** Actions that take a batch one station further along the road to payment and reversal. */
  lemma ForwardKeeps(b: Batch, a: Action)
    requires Inv(b) && Apply(b, a).Ok? && (a.Approve? || a.MakeExport? || a.MarkPaid? || a.Reverse?)
    ensures Inv(Apply(b, a).value)
  {
    hide Replay, Cash, Payments, OpenCount, EndsWith, Append, Decided, Closings;
    var c := Apply(b, a).value;
    var e := LastOf(b, a);
    AppendFacts(b.log, e.kind, e.from, e.to, e.actor, e.amount);
    assert c.log == b.log + [c.log[|b.log|]];
    EndsWithOne(b.log, Approach(b.status), c.log[|b.log|]);
    assert Approach(c.status) == Approach(b.status) + [e.kind];
    EndsWithIsLong(b.log, Approach(b.status));
    assert |c.log| - |Approach(c.status)| == |b.log| - |Approach(b.status)|;
  }

  lemma EndsWithIsLong(log: seq<Entry>, kinds: seq<Kind>)
    requires EndsWith(log, kinds)
    ensures |kinds| <= |log|
  {}

  /** The entry an action appends, its number aside. */
  ghost function LastOf(b: Batch, a: Action): Entry {
    match a
    case Approve(actor) => Entry(0, Approval, Some(b.status), Approved, actor, 0.0)
    case RaiseDispute(actor, _) => Entry(0, DisputeRaised, Some(b.status), Disputed, actor, 0.0)
    case ResolveDispute(actor, accepted) =>
      Entry(0, DisputeResolved, Some(Disputed), if accepted then Review else Failed, actor, 0.0)
    case MakeExport(actor, _, _) => Entry(0, ExportMade, Some(Approved), Exported, actor, 0.0)
    case MarkPaid(actor, _) => Entry(0, Payment, Some(Exported), Paid, actor, b.netRevenue)
    case Reverse(actor) => Entry(0, Reversal, Some(Paid), Reversed, actor, -b.netRevenue)
  }

  lemma DisputeKeeps(b: Batch, a: Action)
    requires Inv(b) && Apply(b, a).Ok? && (a.RaiseDispute? || a.ResolveDispute?)
    ensures Inv(Apply(b, a).value)
  {
    hide Inv, Apply;
    if a.RaiseDispute? { RaisingKeeps(b, a); } else { ResolvingKeeps(b, a); }
  }

  lemma RaisingKeeps(b: Batch, a: Action)
    requires Inv(b) && Apply(b, a).Ok? && a.RaiseDispute?
    ensures Inv(Apply(b, a).value)
  {
    hide Replay, Cash, Payments, Append, Closings;
    var c := Apply(b, a).value;
    AppendFacts(b.log, DisputeRaised, Some(b.status), Disputed, a.actor, 0.0);
    OpenCountPrefix(b.disputes, c.disputes, |b.disputes|);
  }

  lemma ResolvingKeeps(b: Batch, a: Action)
    requires Inv(b) && Apply(b, a).Ok? && a.ResolveDispute?
    ensures Inv(Apply(b, a).value)
  {
    hide Replay, Cash, Payments, Append, Closings, OpenCount, Decided;
    var c := Apply(b, a).value;
    AppendFacts(b.log, DisputeResolved, Some(Disputed), if a.accepted then Review else Failed, a.actor, 0.0);
    var i := OpenIndex(b.disputes, |b.disputes|);
    OpenCountUpdate(b.disputes, i, c.disputes[i], |b.disputes|);
  }

  lemma StepKeeps(b: Batch, a: Action)
    requires Inv(b)
    ensures Inv(Step(b, a))
  {
    hide Inv, Apply;
    if Apply(b, a).Ok? {
      if a.RaiseDispute? || a.ResolveDispute? { DisputeKeeps(b, a); } else { ForwardKeeps(b, a); }
    }
  }

  lemma NewBatchOk(period: Period, actor: string, netRevenue: real)
    ensures Inv(NewBatch(period, actor, netRevenue))
  {
    var b := NewBatch(period, actor, netRevenue);
    assert Replay(b.log, 1) == Some(Review);
    assert Cash(b.log, 0) == 0.0 && Payments(b.log, 0) == 0;
  }

  // ---------------------------------------------------------------------------------------
  // Main results, over every run
  // ---------------------------------------------------------------------------------------

  lemma {:induction false} RunKeeps(period: Period, actor: string, netRevenue: real, actions: seq<Action>, k: nat)
    requires k <= |actions|
    ensures Inv(Run(NewBatch(period, actor, netRevenue), actions, k))
  {
    if k == 0 {
      NewBatchOk(period, actor, netRevenue);
    } else {
      RunKeeps(period, actor, netRevenue, actions, k - 1);
      StepKeeps(Run(NewBatch(period, actor, netRevenue), actions, k - 1), actions[k - 1]);
    }
  }

  /** In every run: disputed exactly when one dispute is open, never more than one; nothing is approved,
      exported, paid or reversed on the creator's word; the log replays to the status; what was paid is
      the net revenue, payment plus reversal is nothing, and the one adjustment of a reversed batch takes
      the net revenue back; a dispute is resolved or rejected as often as the log closes one that way. */
  lemma SettlementLedger(period: Period, creator: string, netRevenue: real, actions: seq<Action>, k: nat)
    requires k <= |actions|
    ensures var b := Run(NewBatch(period, creator, netRevenue), actions, k);
            && (b.status == Disputed <==> OpenCount(b.disputes, |b.disputes|) == 1)
            && OpenCount(b.disputes, |b.disputes|) <= 1
            && (b.status in {Approved, Exported, Paid, Reversed} ==>
                b.approvedBy.Some? && b.approvedBy.value != creator)
            && Replay(b.log, |b.log|) == Some(b.status)
            && (b.status == Paid ==> Cash(b.log, |b.log|) == netRevenue)
            && (b.status != Paid ==> Cash(b.log, |b.log|) == 0.0)
            && Payments(b.log, |b.log|) <= 1
            && (forall i, j :: 0 <= i < j < |b.exports| ==> b.exports[i] != b.exports[j])
            && b.adjustments == (if b.status == Reversed then [-netRevenue] else [])
            && (b.paymentReference.Some? <==> b.status in {Paid, Reversed})
            && Decided(b.disputes, |b.disputes|, Resolved) == Closings(b.log, |b.log|, Review)
            && Decided(b.disputes, |b.disputes|, Rejected) == Closings(b.log, |b.log|, Failed)
  {
    hide Apply, Replay, Cash, Payments, OpenCount, EndsWith, Decided, Closings;
    RunKeeps(period, creator, netRevenue, actions, k);
    CreatorKept(period, creator, netRevenue, actions, k);
  }

  lemma {:induction false} CreatorKept(period: Period, creator: string, netRevenue: real, actions: seq<Action>, k: nat)
    requires k <= |actions|
    ensures var b := Run(NewBatch(period, creator, netRevenue), actions, k);
            b.createdBy == creator && b.netRevenue == netRevenue
  {
    hide Append;
    if k > 0 { CreatorKept(period, creator, netRevenue, actions, k - 1); }
  }

  /** A payment is always the third of three consecutive log entries: an approval by someone other than
      the creator, an export, and the payment, with no dispute in between. */
  lemma PaymentFollowsApproval(period: Period, creator: string, netRevenue: real, actions: seq<Action>, k: nat)
    requires k <= |actions| && Run(NewBatch(period, creator, netRevenue), actions, k).status == Paid
    ensures var log := Run(NewBatch(period, creator, netRevenue), actions, k).log;
            var n := |log|;
            && n >= 4
            && log[n - 3].kind == Approval && log[n - 3].actor != creator
            && log[n - 2].kind == ExportMade && log[n - 1].kind == Payment
  {
    hide Apply, Cash, Payments, OpenCount;
    RunKeeps(period, creator, netRevenue, actions, k);
    CreatorKept(period, creator, netRevenue, actions, k);
    var log := Run(NewBatch(period, creator, netRevenue), actions, k).log;
    var n := |log|;
    assert log[n - 3 + 0].kind == [Approval, ExportMade, Payment][0];
    assert log[n - 3 + 1].kind == [Approval, ExportMade, Payment][1];
    assert log[n - 3 + 2].kind == [Approval, ExportMade, Payment][2];
    LongLog(log);
  }

  /** Payment is three transitions away from a new batch, so its log has at least four entries. */
  lemma LongLog(log: seq<Entry>)
    requires |log| >= 3 && Replay(log, |log|) == Some(Paid)
    ensures |log| >= 4
  {
    assert Replay(log, 1).Some? ==> Replay(log, 1).value == Review;
    assert Replay(log, 2).Some? ==> Replay(log, 2).value in Transitions(Review);
    assert Replay(log, 3) != Some(Paid);
  }

  lemma {:induction false} ExportsGrow(b: Batch, actions: seq<Action>, i: nat, k: nat)
    requires i <= k <= |actions|
    ensures Run(b, actions, i).exports <= Run(b, actions, k).exports
    decreases k - i
  {
    hide Append, OpenIndex;
    if i < k { ExportsGrow(b, actions, i, k - 1); }
  }

  /** In every run a format and destination that has been exported once is refused from then on,
      whatever happens to the batch in between. */
  lemma ExportOnce(period: Period, creator: string, netRevenue: real, actions: seq<Action>, i: nat, j: nat)
    requires i < j < |actions| && actions[i].MakeExport? && actions[j].MakeExport?
    requires actions[i].format == actions[j].format && actions[i].destination == actions[j].destination
    ensures var b := NewBatch(period, creator, netRevenue);
            Apply(Run(b, actions, i), actions[i]).Ok? ==> Apply(Run(b, actions, j), actions[j]).Err?
  {
    hide Append;
    var b := NewBatch(period, creator, netRevenue);
    if Apply(Run(b, actions, i), actions[i]).Ok? {
      var made := Export(actions[i].format, actions[i].destination);
      var after := Run(b, actions, i + 1);
      assert after == Step(Run(b, actions, i), actions[i]);
      assert after.exports[|after.exports| - 1] == made;
      ExportsGrow(b, actions, i + 1, j);
      assert made in Run(b, actions, j).exports;
    }
  }

  /** The i-th action of the run exported this format and destination. */
  predicate ExportsAt(b: Batch, actions: seq<Action>, i: nat, e: Export)
    requires i < |actions|
  {
    actions[i].MakeExport? && Export(actions[i].format, actions[i].destination) == e
        && Apply(Run(b, actions, i), actions[i]).Ok?
  }

  /** The exports of a batch are those its run has made. */
  lemma {:induction false} ExportsAreMade(b: Batch, actions: seq<Action>, k: nat, e: Export)
    requires k <= |actions| && b.exports == []
    ensures e in Run(b, actions, k).exports <==> exists i :: 0 <= i < k && ExportsAt(b, actions, i, e)
  {
    hide Append, OpenIndex;
    if k > 0 {
      ExportsAreMade(b, actions, k - 1, e);
      var before, after := Run(b, actions, k - 1), Run(b, actions, k);
      assert after == Step(before, actions[k - 1]);
      if e in before.exports {
        var i :| 0 <= i < k - 1 && ExportsAt(b, actions, i, e);
      } else if e in after.exports {
        assert ExportsAt(b, actions, k - 1, e);
      }
    }
  }

  /** In every run: exporting an approved batch in a known format is refused exactly when an earlier action
      of the run has exported that format and destination. */
  lemma ExportRefusedIff(period: Period, creator: string, netRevenue: real, actions: seq<Action>, k: nat,
                         actor: string, format: Format, destination: string)
    requires k <= |actions| && format != OtherFormat
    requires Run(NewBatch(period, creator, netRevenue), actions, k).status == Approved
    ensures var b := NewBatch(period, creator, netRevenue);
            Apply(Run(b, actions, k), MakeExport(actor, format, destination)).Err? <==>
            exists i :: 0 <= i < k && ExportsAt(b, actions, i, Export(format, destination))
  {
    hide Append, Run, ExportsAt;
    ExportsAreMade(NewBatch(period, creator, netRevenue), actions, k, Export(format, destination));
  }

  /** So a batch that is disputed after export and approved again cannot be exported the same way twice. */
  lemma SecondExportRefused(period: Period, net: real)
    ensures var actions := [Approve("b"), MakeExport("b", Csv, "erp"), RaiseDispute("c", "late"),
                            ResolveDispute("b", true), Approve("b")];
            var b := Run(NewBatch(period, "a", net), actions, 5);
            b.status == Approved && Apply(b, MakeExport("b", Csv, "erp")) == Err(AlreadyExported)
  {
    var actions := [Approve("b"), MakeExport("b", Csv, "erp"), RaiseDispute("c", "late"), ResolveDispute("b", true),
                    Approve("b")];
    var b0 := NewBatch(period, "a", net);
    var b1, b2 := Run(b0, actions, 1), Run(b0, actions, 2);
    assert Run(b0, actions, 0) == b0;
    assert b1.status == Approved && b1.exports == [] && b1.disputes == [] && b1.createdBy == "a";
    assert b2.status == Exported && b2.exports == [Export(Csv, "erp")] && b2.disputes == [] && b2.createdBy == "a";
    var b3, b4 := Run(b0, actions, 3), Run(b0, actions, 4);
    assert b3.status == Disputed && b3.exports == b2.exports && b3.disputes == [Dispute(Open, "late", "c")]
        && b3.createdBy == "a";
    assert OpenIndex(b3.disputes, 0) == 0;
    assert OpenIndex(b3.disputes, 1) == 0;
    assert b4.status == Review && b4.exports == b2.exports && b4.createdBy == "a";
  }

  // ---------------------------------------------------------------------------------------
  // The repository object
  // ---------------------------------------------------------------------------------------

  class SettlementDesk {
    var batches: map<string, Batch>

    /** Every batch is in order, and no two are for the same market and period. */
    ghost predicate AllOk()
      reads this
    {
      && (forall id :: id in batches ==> Inv(batches[id]))
      && (forall a, b :: a in batches && b in batches && batches[a].period == batches[b].period ==> a == b)
    }

    predicate PeriodTaken(period: Period)
      reads this
    {
      exists id :: id in batches && batches[id].period == period
    }

    constructor ()
      ensures batches == map[] && AllOk()
    {
      batches := map[];
    }

    /** A batch for the settled trades of a market and period, which has none yet. */
    method CreateBatch(id: string, period: Period, actor: string, netRevenue: real, trades: nat) returns (r: Result<()>)
      modifies this
      ensures r == Err(NoTrades) <==> trades == 0
      ensures r == Err(BatchExists) <==> trades > 0 && old(PeriodTaken(period))
      ensures r == Err(DuplicateKey) <==> trades > 0 && !old(PeriodTaken(period)) && id in old(batches)
      ensures batches == if r.Ok? then old(batches)[id := NewBatch(period, actor, netRevenue)] else old(batches)
      ensures r.Ok? || r.error in {NoTrades, BatchExists, DuplicateKey}
      ensures old(AllOk()) ==> AllOk()
    {
      if trades == 0 {
        return Err(NoTrades);
      }
      if PeriodTaken(period) {
        return Err(BatchExists);
      }
      if id in batches {
        return Err(DuplicateKey);
      }
      NewBatchOk(period, actor, netRevenue);
      batches := batches[id := NewBatch(period, actor, netRevenue)];
      return Ok(());
    }

    /** What a method must do to the table for one action on one batch. */
    static ghost predicate Did(before: map<string, Batch>, after: map<string, Batch>, id: string, a: Action,
                               r: Result<()>) {
      if id !in before then r == Err(UnknownBatch) && after == before
      else
        var step := Apply(before[id], a);
        if step.Ok? then r == Ok(()) && after == before[id := step.value]
        else r == Err(step.error) && after == before
    }

    method ApproveBatch(id: string, actor: string) returns (r: Result<()>)
      modifies this
      ensures Did(old(batches), batches, id, Approve(actor), r)
      ensures old(AllOk()) ==> AllOk()
    {
      hide Inv, Append;
      if id !in batches {
        return Err(UnknownBatch);
      }
      var b := batches[id];
      if Inv(b) { StepKeeps(b, Approve(actor)); }
      if Approved !in Transitions(b.status) {
        return Err(InvalidTransition);
      }
      if b.createdBy == actor {
        return Err(CreatorCannotApprove);
      }
      batches := batches[id := b.(status := Approved, approvedBy := Some(actor),
                                  log := Append(b.log, Approval, Some(b.status), Approved, actor, 0.0))];
      return Ok(());
    }

    method DisputeBatch(id: string, actor: string, reason: string) returns (r: Result<()>)
      modifies this
      ensures Did(old(batches), batches, id, RaiseDispute(actor, reason), r)
      ensures old(AllOk()) ==> AllOk()
    {
      hide Inv, Append;
      if id !in batches {
        return Err(UnknownBatch);
      }
      var b := batches[id];
      if Inv(b) { StepKeeps(b, RaiseDispute(actor, reason)); }
      if Disputed !in Transitions(b.status) {
        return Err(InvalidTransition);
      }
      batches := batches[id := b.(status := Disputed, disputes := b.disputes + [Dispute(Open, reason, actor)],
                                  log := Append(b.log, DisputeRaised, Some(b.status), Disputed, actor, 0.0))];
      return Ok(());
    }

    method ResolveBatchDispute(id: string, actor: string, accepted: bool) returns (r: Result<()>)
      modifies this
      ensures Did(old(batches), batches, id, ResolveDispute(actor, accepted), r)
      ensures old(AllOk()) ==> AllOk()
    {
      hide Inv, Append;
      if id !in batches {
        return Err(UnknownBatch);
      }
      var b := batches[id];
      if Inv(b) { StepKeeps(b, ResolveDispute(actor, accepted)); }
      var target := if accepted then Review else Failed;
      if target !in Transitions(b.status) {
        return Err(InvalidTransition);
      }
      var i := OpenIndex(b.disputes, |b.disputes|);
      if i == |b.disputes| {
        return Err(NoOpenDispute);
      }
      var closed := b.disputes[i].(status := if accepted then Resolved else Rejected);
      batches := batches[id := b.(status := target, disputes := b.disputes[i := closed],
                                  log := Append(b.log, DisputeResolved, Some(Disputed), target, actor, 0.0))];
      return Ok(());
    }

    method ExportBatch(id: string, actor: string, format: Format, destination: string) returns (r: Result<()>)
      modifies this
      ensures if format == OtherFormat then r == Err(InvalidFormat) && batches == old(batches)
              else Did(old(batches), batches, id, MakeExport(actor, format, destination), r)
      ensures old(AllOk()) ==> AllOk()
    {
      hide Inv, Append;
      if format != Csv && format != Json {
        return Err(InvalidFormat);
      }
      if id !in batches {
        return Err(UnknownBatch);
      }
      var b := batches[id];
      if Inv(b) { StepKeeps(b, MakeExport(actor, format, destination)); }
      if Exported !in Transitions(b.status) {
        return Err(InvalidTransition);
      }
      if Export(format, destination) in b.exports {
        return Err(AlreadyExported);
      }
      batches := batches[id := b.(status := Exported, exports := b.exports + [Export(format, destination)],
                                  log := Append(b.log, ExportMade, Some(Approved), Exported, actor, 0.0))];
      return Ok(());
    }

    method MarkBatchPaid(id: string, actor: string, reference: string) returns (r: Result<()>)
      modifies this
      ensures Did(old(batches), batches, id, MarkPaid(actor, reference), r)
      ensures old(AllOk()) ==> AllOk()
    {
      hide Inv, Append;
      if id !in batches {
        return Err(UnknownBatch);
      }
      var b := batches[id];
      if Inv(b) { StepKeeps(b, MarkPaid(actor, reference)); }
      if Paid !in Transitions(b.status) {
        return Err(InvalidTransition);
      }
      batches := batches[id := b.(status := Paid, paymentReference := Some(reference),
                                  log := Append(b.log, Payment, Some(Exported), Paid, actor, b.netRevenue))];
      return Ok(());
    }

    method ReverseBatch(id: string, actor: string) returns (r: Result<()>)
      modifies this
      ensures Did(old(batches), batches, id, Reverse(actor), r)
      ensures old(AllOk()) ==> AllOk()
    {
      hide Inv, Append;
      if id !in batches {
        return Err(UnknownBatch);
      }
      var b := batches[id];
      if Inv(b) { StepKeeps(b, Reverse(actor)); }
      if Reversed !in Transitions(b.status) {
        return Err(InvalidTransition);
      }
      var amount := -b.netRevenue;
      batches := batches[id := b.(status := Reversed, adjustments := b.adjustments + [amount],
                                  log := Append(b.log, Reversal, Some(Paid), Reversed, actor, amount))];
      return Ok(());
    }
  }
}
