/**
 The campaign lifecycle and the wallets it charges.

 Every money step of a campaign runs in one database transaction that holds the campaign row and
 the wallet row, so a run of the program is a sequence of the steps below. The data model and the
 steps are here; LedgerInvariant proves what every run keeps; LedgerStore has the program's own
 imperative form of the steps.
 */
module CampaignLedger {
  import opened CampaignPricing
  import opened Wrappers

  datatype Status =
    | Initiated | InProgress | WaitingForApproval | Approved | Running | Interrupted | Executed
    | Expired | Rejected | Cancelled | CancelledByAdmin
  {
    predicate Editable() { Initiated? || InProgress? }
    /** The fee has been taken and not given back as a whole. */
    predicate Charged() { Approved? || Running? || Interrupted? || Executed? }
  }

  datatype Bucket = Free | Frozen | Locked | Credit | Spent | Agency

  /** One balance snapshot: the six buckets of a wallet. */
  datatype Balance = Balance(free: nat, frozen: nat, locked: nat, credit: nat, spent: nat, agency: nat) {
    function Get(b: Bucket): nat {
      match b
      case Free => free
      case Frozen => frozen
      case Locked => locked
      case Credit => credit
      case Spent => spent
      case Agency => agency
    }

    function Total(): nat { free + frozen + locked + credit + spent + agency }
  }

  /** A transaction's type, source and operation, as the lookups filter on them. */
  datatype TxKind =
    | ReserveBudget | ConsumeBudget
    | RefundCancelledFrozen | RefundCancelledSpent | RefundRejected | RefundExpired
    | RefundAdminFrozen | RefundAdminSpent | RefundUndelivered
    | WalletDeposit

  datatype Tx = Tx(
    kind: TxKind,
    customer: nat,
    campaign: Option<nat>,
    amount: nat,
    before: Balance,
    after: Balance,
    facts: Option<PriceFacts>)

  datatype Campaign = Campaign(
    customer: nat,
    status: Status,
    scheduleAt: Option<int>,
    audience: Option<nat>,
    sent: Option<nat>,
    refundMarked: bool)

  /** Campaign ids are positions; a wallet is named by its customer and holds its latest snapshot. */
  datatype Ledger = Ledger(campaigns: seq<Campaign>, wallets: map<nat, Balance>, txs: seq<Tx>)

  datatype Outcome =
    | Done
    | Noop
    | CampaignNotFound
    | AccessDenied
    | UpdateNotAllowed
    | NotWaitingForApproval
    | NotApproved
    | NotRunning
    | RescheduleNotAllowed
    | ScheduleMissing
    | ScheduleTooSoon
    | ScheduleTooClose
    | ScheduleOutsideWindow
    | NotEligibleYet
    | StatisticsMissing
    | ManualReview
    | InsufficientFunds
    | WalletNotFound
    | FreezeNotFound
    | MultipleFreezes
    | FeeNotFound
    | MultipleFees

  /** Times are nanoseconds. */
  const MINUTE: int := 60_000_000_000
  const CUSTOMER_CANCEL_LEAD: int := 10 * MINUTE
  const ADMIN_CANCEL_LEAD: int := 2 * MINUTE
  const RESCHEDULE_LEAD: int := 2 * MINUTE

  /** Completed transactions of one kind for a campaign, oldest first. */
  function Matching(txs: seq<Tx>, customer: nat, id: nat, kind: TxKind): (found: seq<Tx>)
  {
    if txs == [] then []
    else
      var last := txs[|txs| - 1];
      Matching(txs[..|txs| - 1], customer, id, kind) + if Matches(last, customer, id, kind) then [last] else []
  }

  predicate Matches(t: Tx, customer: nat, id: nat, kind: TxKind) {
    t.kind == kind && t.customer == customer && t.campaign == Some(id)
  }

  /** Money leaves one bucket and arrives in another; the other four keep theirs. */
  function Move(b: Balance, src: Bucket, dst: Bucket, amount: nat): (r: Balance)
    requires src != dst && b.Get(src) >= amount
    ensures r.Total() == b.Total()
    ensures r.Get(src) == b.Get(src) - amount
    ensures r.Get(dst) == b.Get(dst) + amount
    ensures forall k: Bucket {:trigger r.Get(k)} :: k != src && k != dst ==> r.Get(k) == b.Get(k)
  {
    Put(Put(b, src, b.Get(src) - amount), dst, b.Get(dst) + amount)
  }

  function Put(b: Balance, k: Bucket, v: nat): (r: Balance)
    ensures r.Get(k) == v
    ensures forall o: Bucket {:trigger r.Get(o)} :: o != k ==> r.Get(o) == b.Get(o)
    ensures r.Total() == b.Total() - b.Get(k) + v
  {
    match k
    case Free => b.(free := v)
    case Frozen => b.(frozen := v)
    case Locked => b.(locked := v)
    case Credit => b.(credit := v)
    case Spent => b.(spent := v)
    case Agency => b.(agency := v)
  }

  /** A freeze drains the free balance first and takes the rest from credit. */
  function Freeze(b: Balance, cost: nat): (r: Balance)
    requires b.free + b.credit >= cost
    ensures r.Total() == b.Total()
    ensures r.frozen == b.frozen + cost && r.locked == b.locked && r.spent == b.spent && r.agency == b.agency
    ensures r.credit < b.credit ==> r.free == 0
    ensures r.free <= b.free && r.credit <= b.credit
  {
    var fromFree := if cost <= b.free then cost else b.free;
    Move(Move(b, Free, Frozen, fromFree), Credit, Frozen, cost - fromFree)
  }

  /**
   How a finalized campaign gives its money back or consumes it: the one transaction that is looked
   up, the move it causes, and the status and record it leaves.
   */
  datatype Settlement = Settlement(
    lookup: TxKind,
    src: Bucket,
    dst: Bucket,
    status: Status,
    record: TxKind,
    walletFirst: bool)

  const APPROVAL := Settlement(ReserveBudget, Frozen, Spent, Approved, ConsumeBudget, false)
  const REJECTION := Settlement(ReserveBudget, Frozen, Credit, Rejected, RefundRejected, false)
  const EXPIRY := Settlement(ReserveBudget, Frozen, Credit, Expired, RefundExpired, true)
  const CANCEL_WAITING := Settlement(ReserveBudget, Frozen, Credit, Cancelled, RefundCancelledFrozen, true)
  const CANCEL_APPROVED := Settlement(ConsumeBudget, Spent, Credit, Cancelled, RefundCancelledSpent, true)
  const ADMIN_CANCEL_MISSED := Settlement(ReserveBudget, Frozen, Credit, CancelledByAdmin, RefundAdminFrozen, true)
  const ADMIN_CANCEL_APPROVED := Settlement(ConsumeBudget, Spent, Credit, CancelledByAdmin, RefundAdminSpent, true)

  /** The guards of a settlement, in the order the program tests them. */
  function SettlementGuard(s: Ledger, id: nat, m: Settlement): (o: Outcome)
    requires id < |s.campaigns|
    ensures o.Done? ==>
      var c := s.campaigns[id];
      c.customer in s.wallets && |Matching(s.txs, c.customer, id, m.lookup)| == 1 &&
      s.wallets[c.customer].Get(m.src) >= Matching(s.txs, c.customer, id, m.lookup)[0].amount
  {
    var c := s.campaigns[id];
    var found := Matching(s.txs, c.customer, id, m.lookup);
    var noWallet := c.customer !in s.wallets;
    if m.walletFirst && noWallet then WalletNotFound
    else if |found| == 0 then if m.lookup.ReserveBudget? then FreezeNotFound else FeeNotFound
    else if |found| > 1 then if m.lookup.ReserveBudget? then MultipleFreezes else MultipleFees
    else if noWallet then WalletNotFound
    else if s.wallets[c.customer].Get(m.src) < found[0].amount then InsufficientFunds
    else Done
  }

  /** What one transaction writes. */
  datatype Change =
    | Nothing
    | Edit(id: nat, campaign: Campaign)
    | Pay(id: nat, campaign: Campaign, kind: TxKind, amount: nat, after: Balance, facts: Option<PriceFacts>)
    | Open(campaign: Campaign)
    | Receive(customer: nat, amount: nat, after: Balance)

  function BalanceOf(s: Ledger, customer: nat): (b: Balance) {
    if customer in s.wallets then s.wallets[customer] else Balance(0, 0, 0, 0, 0, 0)
  }

  predicate Keeps(before: Balance, after: Balance) {
    after.Total() == before.Total()
  }

  predicate Adds(before: Balance, amount: nat, after: Balance) {
    after.Total() == before.Total() + amount <= MAX_UINT64 && after.frozen == before.frozen &&
      after.spent == before.spent
  }

  /**
   What every change the program writes respects: a campaign keeps its owner, a payment keeps the
   wallet's total, only a freeze sets the audience, and a deposit adds to neither frozen nor spent.
   */
  predicate Fits(s: Ledger, d: Change) {
    match d
    case Nothing => true
    case Edit(id, c) =>
      id < |s.campaigns| && c.customer == s.campaigns[id].customer && c.audience == s.campaigns[id].audience
    case Pay(id, c, kind, amount, after, facts) =>
      && id < |s.campaigns| && c.customer == s.campaigns[id].customer && c.customer in s.wallets
      && Keeps(s.wallets[c.customer], after)
      && (!kind.ReserveBudget? ==> c.audience == s.campaigns[id].audience)
      && !kind.WalletDeposit?
    case Open(c) => c.customer in s.wallets && c.status.Initiated?
    case Receive(customer, amount, after) => Adds(BalanceOf(s, customer), amount, after)
  }

  /** The transaction a payment or a deposit records, with the snapshots before and after. */
  function Record(s: Ledger, d: Change): (t: Tx)
    requires Fits(s, d) && (d.Pay? || d.Receive?)
  {
    match d
    case Pay(id, c, kind, amount, after, facts) =>
      Tx(kind, c.customer, Some(id), amount, s.wallets[c.customer], after, facts)
    case Receive(customer, amount, after) =>
      Tx(WalletDeposit, customer, None, amount, BalanceOf(s, customer), after, None)
  }

  function Apply(s: Ledger, d: Change): (r: Ledger)
    requires Fits(s, d)
    ensures |r.campaigns| == |s.campaigns| + if d.Open? then 1 else 0
    ensures !d.Pay? && !d.Receive? ==> r.wallets == s.wallets
  {
    match d
    case Nothing => s
    case Edit(id, c) => Ledger(s.campaigns[id := c], s.wallets, s.txs)
    case Pay(id, c, kind, amount, after, facts) =>
      Ledger(s.campaigns[id := c], s.wallets[c.customer := after], s.txs + [Record(s, d)])
    case Open(c) => Ledger(s.campaigns + [c], s.wallets, s.txs)
    case Receive(customer, amount, after) =>
      Ledger(s.campaigns, s.wallets[customer := after], s.txs + [Record(s, d)])
  }

  /** A decision and what it writes; a refusal writes nothing. */
  datatype Decision = Decision(change: Change, outcome: Outcome)
  {
    predicate Sound(s: Ledger) { Fits(s, change) && (!outcome.Done? ==> change.Nothing?) }
  }

  /** Neither freezes money, brings money in nor opens a campaign. */
  predicate Settles(d: Change) { d.Nothing? || d.Edit? || (d.Pay? && !d.kind.ReserveBudget?) }

  function Refuse(o: Outcome): (d: Decision) { Decision(Nothing, o) }

  function Settle(s: Ledger, id: nat, m: Settlement): (d: Decision)
    requires id < |s.campaigns| && m.src != m.dst && m.record !in {ReserveBudget, WalletDeposit}
    ensures d.Sound(s)
    ensures d.outcome == SettlementGuard(s, id, m)
    ensures d.change.Pay? ==> d.change.kind == m.record
    ensures d.change.Pay? || d.change.Nothing?
  {
    var guard := SettlementGuard(s, id, m);
    if !guard.Done? then Refuse(guard)
    else
      var c := s.campaigns[id];
      var amount := Matching(s.txs, c.customer, id, m.lookup)[0].amount;
      Decision(Pay(id, c.(status := m.status), m.record, amount,
                   Move(s.wallets[c.customer], m.src, m.dst, amount), None), Done)
  }

  datatype Event =
    | Create(customer: nat)
    | SaveDraft(id: nat, scheduleAt: Option<int>)
    | Finalize(id: nat, quote: Quote, facts: PriceFacts)
    | Approve(id: nat, now: int)
    | Reject(id: nat)
    | Cancel(id: nat, customer: nat, now: int)
    | AdminCancel(id: nat, now: int)
    | Expire(id: nat, customer: nat, cutoff: int)
    | MoveToRunning(id: nat)
    | MoveToExecuted(id: nat)
    | Requeue(id: nat)
    | Interrupt(id: nat)
    | Reschedule(id: nat, at: int, now: int, inWindow: bool)
    | ReportDelivery(id: nat, sent: Option<nat>, marker: Option<bool>)
    | Reconcile(id: nat, customer: nat, now: int, delay: int, latest: PriceTable)
    | Deposit(customer: nat, free: nat, locked: nat, credit: nat, agency: nat)

  /** A schedule that has passed without an approval. */
  predicate MissedPendingApproval(c: Campaign, now: int) {
    c.status.WaitingForApproval? && c.scheduleAt.Some? && c.scheduleAt.value <= now
  }

  function DecideFinalize(s: Ledger, id: nat, quote: Quote, facts: PriceFacts): (d: Decision)
    ensures d.Sound(s)
  {
    if id >= |s.campaigns| then Refuse(CampaignNotFound)
    else
      var c := s.campaigns[id];
      if !c.status.Editable() then Refuse(UpdateNotAllowed)
      else if c.customer !in s.wallets then Refuse(WalletNotFound)
      else
        var b := s.wallets[c.customer];
        if b.free + b.credit < quote.totalCost then Refuse(InsufficientFunds)
        else
          Decision(Pay(id, c.(status := WaitingForApproval, audience := Some(quote.audience)), ReserveBudget,
                       quote.totalCost, Freeze(b, quote.totalCost), Some(facts)), Done)
  }

  function DecideApprove(s: Ledger, id: nat, now: int): (d: Decision)
    ensures d.Sound(s) && Settles(d.change)
  {
    if id >= |s.campaigns| then Refuse(CampaignNotFound)
    else
      var c := s.campaigns[id];
      if !c.status.WaitingForApproval? then Refuse(NotWaitingForApproval)
      else if c.scheduleAt.None? || c.scheduleAt.value < now then Refuse(ScheduleTooSoon)
      else Settle(s, id, APPROVAL)
  }

  function DecideReject(s: Ledger, id: nat): (d: Decision)
    ensures d.Sound(s) && Settles(d.change)
  {
    if id >= |s.campaigns| then Refuse(CampaignNotFound)
    else if !s.campaigns[id].status.WaitingForApproval? then Refuse(NotWaitingForApproval)
    else Settle(s, id, REJECTION)
  }

  function DecideCancel(s: Ledger, id: nat, customer: nat, now: int): (d: Decision)
    ensures d.Sound(s) && Settles(d.change)
  {
    if id >= |s.campaigns| then Refuse(CampaignNotFound)
    else
      var c := s.campaigns[id];
      if c.customer != customer then Refuse(AccessDenied)
      else if c.status.WaitingForApproval? then Settle(s, id, CANCEL_WAITING)
      else if c.status.Approved? then
        if c.customer !in s.wallets then Refuse(WalletNotFound)
        else if c.scheduleAt.None? then Refuse(NotWaitingForApproval)
        else if c.scheduleAt.value < now + CUSTOMER_CANCEL_LEAD then Refuse(ScheduleTooSoon)
        else Settle(s, id, CANCEL_APPROVED)
      else Refuse(NotWaitingForApproval)
  }

  function DecideAdminCancel(s: Ledger, id: nat, now: int): (d: Decision)
    ensures d.Sound(s) && Settles(d.change)
  {
    if id >= |s.campaigns| then Refuse(CampaignNotFound)
    else
      var c := s.campaigns[id];
      if MissedPendingApproval(c, now) then Settle(s, id, ADMIN_CANCEL_MISSED)
      else if !c.status.Approved? then Refuse(NotApproved)
      else if c.scheduleAt.None? then Refuse(ScheduleMissing)
      else if c.scheduleAt.value - now < ADMIN_CANCEL_LEAD then Refuse(ScheduleTooClose)
      else Settle(s, id, ADMIN_CANCEL_APPROVED)
  }

  /** A campaign that is no longer waiting, or no longer overdue, is skipped without an error. */
  function DecideExpire(s: Ledger, id: nat, customer: nat, cutoff: int): (d: Decision)
    ensures d.Sound(s) && Settles(d.change)
  {
    if id >= |s.campaigns| then Refuse(CampaignNotFound)
    else
      var c := s.campaigns[id];
      if c.customer != customer then Refuse(AccessDenied)
      else if !c.status.WaitingForApproval? then Refuse(Noop)
      else if c.scheduleAt.None? || c.scheduleAt.value >= cutoff then Refuse(Noop)
      else Settle(s, id, EXPIRY)
  }

  function DecideStatus(s: Ledger, id: nat, from: Status, to: Status, wrong: Outcome): (d: Decision)
    requires !wrong.Done?
    ensures d.Sound(s) && Settles(d.change)
  {
    if id >= |s.campaigns| then Refuse(CampaignNotFound)
    else if s.campaigns[id].status != from then Refuse(wrong)
    else Decision(Edit(id, s.campaigns[id].(status := to)), Done)
  }

  function DecideSaveDraft(s: Ledger, id: nat, at: Option<int>): (d: Decision)
    ensures d.Sound(s) && Settles(d.change)
  {
    if id >= |s.campaigns| then Refuse(CampaignNotFound)
    else
      var c := s.campaigns[id];
      if !c.status.Editable() then Refuse(UpdateNotAllowed)
      else Decision(Edit(id, c.(status := InProgress, scheduleAt := if at.Some? then at else c.scheduleAt)), Done)
  }

  function DecideReschedule(s: Ledger, id: nat, at: int, now: int, inWindow: bool): (d: Decision)
    ensures d.Sound(s) && Settles(d.change)
  {
    if id >= |s.campaigns| then Refuse(CampaignNotFound)
    else
      var c := s.campaigns[id];
      if !(c.status.Editable() || c.status.WaitingForApproval? || c.status.Approved?) then Refuse(RescheduleNotAllowed)
      else if c.scheduleAt.Some? && !MissedPendingApproval(c, now) && c.scheduleAt.value - now < RESCHEDULE_LEAD then
        Refuse(ScheduleTooClose)
      else if at < now + RESCHEDULE_LEAD then Refuse(ScheduleTooSoon)
      else if !inWindow then Refuse(ScheduleOutsideWindow)
      else Decision(Edit(id, c.(scheduleAt := Some(at))), Done)
  }

  /** A delivery report is a patch: what it does not name stays. */
  function DecideReport(s: Ledger, id: nat, sent: Option<nat>, marker: Option<bool>): (d: Decision)
    ensures d.Sound(s) && Settles(d.change)
  {
    if id >= |s.campaigns| then Refuse(CampaignNotFound)
    else
      var c := s.campaigns[id];
      Decision(Edit(id, c.(sent := if sent.Some? then sent else c.sent,
                           refundMarked := if marker.Some? then marker.value else c.refundMarked)), Done)
  }

  /** The delay after the schedule is over, messages are missing, and nothing was refunded before. */
  predicate Eligible(c: Campaign, refunds: seq<Tx>, now: int, delay: int) {
    && c.scheduleAt.Some? && now >= c.scheduleAt.value + delay
    && refunds == [] && !c.refundMarked
    && c.sent.Some? && c.audience.Some? && c.sent.value < c.audience.value
  }

  /** The refund job's tests of the campaign and its delivery report. */
  function RefundEligibility(s: Ledger, id: nat, customer: nat, now: int, delay: int): (o: Outcome)
    ensures o.Done? ==>
      id < |s.campaigns| &&
      var c := s.campaigns[id];
      c.customer == customer && c.status.Executed? && c.audience.Some? && c.sent.Some? &&
        c.sent.value < c.audience.value &&
      Matching(s.txs, customer, id, RefundUndelivered) == []
  {
    if id >= |s.campaigns| then Noop
    else
      var c := s.campaigns[id];
      if c.customer != customer then Noop
      else if !c.status.Executed? then Noop
      else if c.scheduleAt.None? then ManualReview
      else if now < c.scheduleAt.value + delay then NotEligibleYet
      else if c.audience.None? then ManualReview
      else if c.audience.value == 0 then Noop
      else if Matching(s.txs, customer, id, RefundUndelivered) != [] then Noop
      else if c.refundMarked then ManualReview
      else if c.sent.None? then StatisticsMissing
      else if c.sent.value >= c.audience.value then Noop
      else Done
  }

  /** Its tests of the price, the fee and the wallet. */
  function RefundPayable(s: Ledger, id: nat, customer: nat, missing: nat, price: Option<Uint64>): (o: Outcome)
    ensures o.Done? ==>
      && price.Some? && customer in s.wallets && Matching(s.txs, customer, id, ConsumeBudget) != []
      && missing * price.value <= LastOf(Matching(s.txs, customer, id, ConsumeBudget)).amount
      && missing * price.value <= s.wallets[customer].spent
  {
    if price.None? then ManualReview
    else if price.value == 0 then ManualReview
    else if missing > MAX_UINT64 / price.value then ManualReview
    else
      var refund := missing * price.value;
      var fees := Matching(s.txs, customer, id, ConsumeBudget);
      if refund == 0 then Noop
      else if fees == [] then ManualReview
      else if LastOf(fees).amount < refund then ManualReview
      else if customer !in s.wallets then WalletNotFound
      else if s.wallets[customer].spent < refund then ManualReview
      else Done
  }

  /** What the refund job decides before it writes. */
  function ReconcileGuard(s: Ledger, id: nat, customer: nat, now: int, delay: int, latest: PriceTable): (o: Outcome)
    ensures o.Done? ==>
      id < |s.campaigns| &&
      var c := s.campaigns[id];
      c.customer == customer && customer in s.wallets && c.status.Executed? &&
      c.audience.Some? && c.sent.Some? && c.sent.value < c.audience.value &&
      Matching(s.txs, customer, id, RefundUndelivered) == [] &&
      LatestFacts(s, customer, id).Some? && RefundPrice(s, customer, id, latest).Some? &&
      Matching(s.txs, customer, id, ConsumeBudget) != [] &&
      var refund := (c.audience.value - c.sent.value) * RefundPrice(s, customer, id, latest).value;
      refund <= LastOf(Matching(s.txs, customer, id, ConsumeBudget)).amount &&
      refund <= s.wallets[customer].spent
  {
    hide RefundEligibility, RefundPayable, Matching, RebuildPrice;
    var eligible := RefundEligibility(s, id, customer, now, delay);
    if !eligible.Done? then eligible
    else
      var c := s.campaigns[id];
      RefundPayable(s, id, customer, c.audience.value - c.sent.value, RefundPrice(s, customer, id, latest))
  }

  function LastOf(txs: seq<Tx>): (t: Tx)
    requires txs != []
  {
    txs[|txs| - 1]
  }

  function LatestFacts(s: Ledger, customer: nat, id: nat): (f: Option<PriceFacts>) {
    var freezes := Matching(s.txs, customer, id, ReserveBudget);
    if freezes == [] then None else LastOf(freezes).facts
  }

  /** The price rebuilt from the latest freeze; metadata that makes no sense rebuilds nothing. */
  function RefundPrice(s: Ledger, customer: nat, id: nat, latest: PriceTable): (p: Option<Uint64>)
    ensures p.Some? ==> LatestFacts(s, customer, id).Some?
  {
    var f := LatestFacts(s, customer, id);
    if f.Some? && f.value.Valid() then RebuildPrice(f, latest) else None
  }

  function DecideReconcile(s: Ledger, id: nat, customer: nat, now: int, delay: int, latest: PriceTable): (d: Decision)
    ensures d.Sound(s) && Settles(d.change)
  {
    hide ReconcileGuard, RefundPrice, Matching;
    var guard := ReconcileGuard(s, id, customer, now, delay, latest);
    if !guard.Done? then Refuse(guard)
    else
      var c := s.campaigns[id];
      var refund := (c.audience.value - c.sent.value) * RefundPrice(s, customer, id, latest).value;
      Decision(Pay(id, c.(refundMarked := true), RefundUndelivered, refund,
                   Move(s.wallets[customer], Spent, Credit, refund), None), Done)
  }

  /** Anything that only adds to free, locked, credit or agency share. */
  function DecideDeposit(s: Ledger, customer: nat, free: nat, locked: nat, credit: nat, agency: nat): (d: Decision)
    ensures d.Sound(s)
  {
    var b := BalanceOf(s, customer);
    var amount := free + locked + credit + agency;
    if b.Total() + amount > MAX_UINT64 then Refuse(Noop)
    else
      Decision(Receive(customer, amount,
                       b.(free := b.free + free, locked := b.locked + locked,
                          credit := b.credit + credit, agency := b.agency + agency)), Done)
  }

  function DecideCreate(s: Ledger, customer: nat): (d: Decision)
    ensures d.Sound(s)
  {
    if customer !in s.wallets then Refuse(WalletNotFound)
    else Decision(Open(Campaign(customer, Initiated, None, None, None, false)), Done)
  }

  function Decide(s: Ledger, e: Event): (d: Decision)
    ensures d.Sound(s)
  {
    match e
    case Create(customer) => DecideCreate(s, customer)
    case SaveDraft(id, at) => DecideSaveDraft(s, id, at)
    case Finalize(id, quote, facts) => DecideFinalize(s, id, quote, facts)
    case Approve(id, now) => DecideApprove(s, id, now)
    case Reject(id) => DecideReject(s, id)
    case Cancel(id, customer, now) => DecideCancel(s, id, customer, now)
    case AdminCancel(id, now) => DecideAdminCancel(s, id, now)
    case Expire(id, customer, cutoff) => DecideExpire(s, id, customer, cutoff)
    case MoveToRunning(id) => DecideStatus(s, id, Approved, Running, NotApproved)
    case MoveToExecuted(id) => DecideStatus(s, id, Running, Executed, NotRunning)
    case Requeue(id) => DecideStatus(s, id, Running, Approved, Noop)
    case Interrupt(id) => DecideStatus(s, id, Running, Interrupted, Noop)
    case Reschedule(id, at, now, inWindow) => DecideReschedule(s, id, at, now, inWindow)
    case ReportDelivery(id, sent, marker) => DecideReport(s, id, sent, marker)
    case Reconcile(id, customer, now, delay, latest) => DecideReconcile(s, id, customer, now, delay, latest)
    case Deposit(customer, free, locked, credit, agency) => DecideDeposit(s, customer, free, locked, credit, agency)
  }

  /** The program reports success. */
  predicate Succeeds(s: Ledger, e: Event) {
    Decide(s, e).outcome.Done?
  }

  /** One transaction: decide, then write. */
  function Step(s: Ledger, e: Event): (r: Ledger) {
    Apply(s, Decide(s, e).change)
  }

  function Run(s: Ledger, es: seq<Event>): (r: Ledger)
    decreases |es|
  {
    if es == [] then s else Run(Step(s, es[0]), es[1..])
  }
}
