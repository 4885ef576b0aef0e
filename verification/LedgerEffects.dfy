/**
 What every step of a consistent ledger does, in plain terms: when it succeeds, as conditions on the
 campaign, the wallet and the time; and then the whole new ledger. Anything else leaves the ledger as
 it was. Times are nanoseconds.
 */
module LedgerEffects {
  import opened CampaignLedger
  import opened CampaignPricing
  import opened LedgerInvariant
  import opened Wrappers

  predicate HasStatus(s: Ledger, id: nat, status: Status) {
    id < |s.campaigns| && s.campaigns[id].status == status
  }

  /** The campaign's schedule is at least so long after a time. */
  predicate StartsAfter(s: Ledger, id: nat, now: int, lead: int)
    requires id < |s.campaigns|
  {
    s.campaigns[id].scheduleAt.Some? && s.campaigns[id].scheduleAt.value - now >= lead
  }

  /** What is frozen for a waiting campaign, and what an approved one was charged. */
  function FrozenFor(s: Ledger, id: nat): nat
    requires id < |s.campaigns|
  {
    Amount(AccountOf(s, id).freezes)
  }

  function FeeOf(s: Ledger, id: nat): nat
    requires id < |s.campaigns|
  {
    Amount(AccountOf(s, id).fees)
  }

  /** The campaign is replaced, its owner's wallet holds a new balance, and one transaction says why. */
  predicate Pays(s: Ledger, t: Ledger, id: nat, c: Campaign, kind: TxKind, amount: nat, after: Balance,
      facts: Option<PriceFacts>)
  {
    && id < |s.campaigns| && c.customer == s.campaigns[id].customer && c.customer in s.wallets
    && t.campaigns == s.campaigns[id := c]
    && t.wallets == s.wallets[c.customer := after]
    && t.txs == s.txs + [Tx(kind, c.customer, Some(id), amount, s.wallets[c.customer], after, facts)]
  }

  /** A waiting campaign's frozen budget becomes credit. */
  predicate Unfreezes(s: Ledger, t: Ledger, id: nat, status: Status, kind: TxKind) {
    && id < |s.campaigns| && s.campaigns[id].customer in s.wallets
    && var c, b, n := s.campaigns[id], s.wallets[s.campaigns[id].customer], FrozenFor(s, id);
    && b.frozen >= n
    && Pays(s, t, id, c.(status := status), kind, n,
            Balance(b.free, b.frozen - n, b.locked, b.credit + n, b.spent, b.agency), None)
  }

  /** An approved campaign's fee becomes credit. */
  predicate Unspends(s: Ledger, t: Ledger, id: nat, status: Status, kind: TxKind) {
    && id < |s.campaigns| && s.campaigns[id].customer in s.wallets
    && var c, b, n := s.campaigns[id], s.wallets[s.campaigns[id].customer], FeeOf(s, id);
    && b.spent >= n
    && Pays(s, t, id, c.(status := status), kind, n,
            Balance(b.free, b.frozen, b.locked, b.credit + n, b.spent - n, b.agency), None)
  }

  /** A waiting campaign's frozen budget is spent. */
  predicate Charges(s: Ledger, t: Ledger, id: nat) {
    && id < |s.campaigns| && s.campaigns[id].customer in s.wallets
    && var c, b, n := s.campaigns[id], s.wallets[s.campaigns[id].customer], FrozenFor(s, id);
    && b.frozen >= n
    && Pays(s, t, id, c.(status := Approved), ConsumeBudget, n,
            Balance(b.free, b.frozen - n, b.locked, b.credit, b.spent + n, b.agency), None)
  }

  // ---------------------------------------------------------------- settlements

  /** Settling a waiting campaign into credit gives its budget back. */
  lemma {:induction false} SettleUnfreezes(s: Ledger, id: nat, m: Settlement)
    requires Inv(s) && id < |s.campaigns| && s.campaigns[id].status.WaitingForApproval?
    requires m in {REJECTION, EXPIRY, CANCEL_WAITING, ADMIN_CANCEL_MISSED}
    ensures
      var d := Settle(s, id, m);
      && d.outcome.Done? && Fits(s, d.change)
      && Unfreezes(s, Apply(s, d.change), id, m.status, m.record)
  {
    hide Inv, Matching, SettlementGuard;
    SettlementGuardsNeverFire(s, id, m);
    ShareIsCovered(s, id);
  }

  /** Settling an approved one gives its fee back. */
  lemma {:induction false} SettleUnspends(s: Ledger, id: nat, m: Settlement)
    requires Inv(s) && id < |s.campaigns| && s.campaigns[id].status.Approved?
    requires m in {CANCEL_APPROVED, ADMIN_CANCEL_APPROVED}
    ensures
      var d := Settle(s, id, m);
      && d.outcome.Done? && Fits(s, d.change)
      && Unspends(s, Apply(s, d.change), id, m.status, m.record)
  {
    hide Inv, Matching, SettlementGuard;
    SettlementGuardsNeverFire(s, id, m);
    ShareIsCovered(s, id);
  }

  lemma {:induction false} OwnerHasWallet(s: Ledger, id: nat)
    requires Inv(s) && id < |s.campaigns|
    ensures s.campaigns[id].customer in s.wallets
  {
    ShareIsCovered(s, id);
    hide Inv;
  }

  // ---------------------------------------------------------------- approval, rejection, expiry

  /** Approval succeeds iff the campaign waits and its schedule has not passed, and takes the fee. */
  lemma {:induction false} ApproveEffect(s: Ledger, id: nat, now: int)
    requires Inv(s)
    ensures
      var t := Step(s, Approve(id, now));
      && (Succeeds(s, Approve(id, now)) <==> HasStatus(s, id, WaitingForApproval) && StartsAfter(s, id, now, 0))
      && (if Succeeds(s, Approve(id, now)) then Charges(s, t, id) else t == s)
  {
    hide Inv, Matching, SettlementGuard;
    if HasStatus(s, id, WaitingForApproval) {
      SettlementGuardsNeverFire(s, id, APPROVAL);
      ShareIsCovered(s, id);
    }
  }

  /** Rejection succeeds iff the campaign waits, and gives its budget back as credit. */
  lemma {:induction false} RejectEffect(s: Ledger, id: nat)
    requires Inv(s)
    ensures
      var t := Step(s, Reject(id));
      && (Succeeds(s, Reject(id)) <==> HasStatus(s, id, WaitingForApproval))
      && (if Succeeds(s, Reject(id)) then Unfreezes(s, t, id, Rejected, RefundRejected) else t == s)
  {
    hide Inv, Matching, SettlementGuard;
    if HasStatus(s, id, WaitingForApproval) {
      SettlementGuardsNeverFire(s, id, REJECTION);
      ShareIsCovered(s, id);
    }
  }

  /** Expiry succeeds iff it is the customer's waiting campaign and its schedule is before the cutoff. */
  lemma {:induction false} ExpireEffect(s: Ledger, id: nat, customer: nat, cutoff: int)
    requires Inv(s)
    ensures
      var e := Expire(id, customer, cutoff);
      var t := Step(s, e);
      && (Succeeds(s, e) <==>
            && HasStatus(s, id, WaitingForApproval) && s.campaigns[id].customer == customer
            && s.campaigns[id].scheduleAt.Some? && s.campaigns[id].scheduleAt.value < cutoff)
      && (if Succeeds(s, e) then Unfreezes(s, t, id, Expired, RefundExpired) else t == s)
  {
    hide Inv, Matching, SettlementGuard;
    if HasStatus(s, id, WaitingForApproval) {
      SettlementGuardsNeverFire(s, id, EXPIRY);
      ShareIsCovered(s, id);
    }
  }

  // ---------------------------------------------------------------- cancellation

  /** An owner may cancel while the campaign waits, or until ten minutes before its schedule when approved. */
  predicate OwnerMayCancel(s: Ledger, id: nat, customer: nat, now: int) {
    && id < |s.campaigns| && s.campaigns[id].customer == customer
    && (HasStatus(s, id, WaitingForApproval) ||
        (HasStatus(s, id, Approved) && StartsAfter(s, id, now, 600_000_000_000)))
  }

  /** The budget or the fee is credit again, and the campaign is cancelled. */
  predicate Cancels(s: Ledger, t: Ledger, id: nat) {
    if HasStatus(s, id, WaitingForApproval) then Unfreezes(s, t, id, Cancelled, RefundCancelledFrozen)
    else Unspends(s, t, id, Cancelled, RefundCancelledSpent)
  }

  lemma {:induction false} CancelEffect(s: Ledger, id: nat, customer: nat, now: int)
    requires Inv(s)
    ensures
      var e := Cancel(id, customer, now);
      && (Succeeds(s, e) <==> OwnerMayCancel(s, id, customer, now))
      && (if Succeeds(s, e) then Cancels(s, Step(s, e), id) else Step(s, e) == s)
  {
    var d := DecideCancel(s, id, customer, now);
    CancelDecision(s, id, customer, now);
    CancelIsDecided(s, id, customer, now);
    DecidedStep(s, Cancel(id, customer, now), d);
    NothingChanges(s);
    hide Inv, Decide, DecideCancel, Step, Succeeds, Fits, Apply, Unfreezes, Unspends;
  }

  lemma {:induction false} CancelDecision(s: Ledger, id: nat, customer: nat, now: int)
    requires Inv(s)
    ensures
      var d := DecideCancel(s, id, customer, now);
      && (d.outcome.Done? <==> OwnerMayCancel(s, id, customer, now))
      && (!d.outcome.Done? ==> d.change == Nothing)
      && (d.outcome.Done? ==> Fits(s, d.change) && Cancels(s, Apply(s, d.change), id))
  {
    hide Settle, SettlementGuard, Fits, Apply, Unfreezes, Unspends, Inv;
    if HasStatus(s, id, WaitingForApproval) {
      SettleUnfreezes(s, id, CANCEL_WAITING);
    } else if HasStatus(s, id, Approved) {
      OwnerHasWallet(s, id);
      SettleUnspends(s, id, CANCEL_APPROVED);
    }
  }

  /** An administrator may cancel after a waiting campaign's schedule, or two minutes before an approved one's. */
  predicate AdminMayCancel(s: Ledger, id: nat, now: int) {
    || (HasStatus(s, id, WaitingForApproval) &&
        s.campaigns[id].scheduleAt.Some? && s.campaigns[id].scheduleAt.value <= now)
    || (HasStatus(s, id, Approved) && StartsAfter(s, id, now, 120_000_000_000))
  }

  predicate AdminCancels(s: Ledger, t: Ledger, id: nat) {
    if HasStatus(s, id, WaitingForApproval) then Unfreezes(s, t, id, CancelledByAdmin, RefundAdminFrozen)
    else Unspends(s, t, id, CancelledByAdmin, RefundAdminSpent)
  }

  lemma {:induction false} AdminCancelEffect(s: Ledger, id: nat, now: int)
    requires Inv(s)
    ensures
      var e := AdminCancel(id, now);
      && (Succeeds(s, e) <==> AdminMayCancel(s, id, now))
      && (if Succeeds(s, e) then AdminCancels(s, Step(s, e), id) else Step(s, e) == s)
  {
    var d := DecideAdminCancel(s, id, now);
    AdminCancelDecision(s, id, now);
    AdminCancelIsDecided(s, id, now);
    DecidedStep(s, AdminCancel(id, now), d);
    NothingChanges(s);
    hide Inv, Decide, DecideAdminCancel, Step, Succeeds, Fits, Apply, Unfreezes, Unspends;
  }

  lemma {:induction false} AdminCancelDecision(s: Ledger, id: nat, now: int)
    requires Inv(s)
    ensures
      var d := DecideAdminCancel(s, id, now);
      && (d.outcome.Done? <==> AdminMayCancel(s, id, now))
      && (!d.outcome.Done? ==> d.change == Nothing)
      && (d.outcome.Done? ==> Fits(s, d.change) && AdminCancels(s, Apply(s, d.change), id))
  {
    hide Settle, SettlementGuard, Fits, Apply, Unfreezes, Unspends, Inv;
    if HasStatus(s, id, WaitingForApproval) {
      SettleUnfreezes(s, id, ADMIN_CANCEL_MISSED);
    } else if HasStatus(s, id, Approved) {
      OwnerHasWallet(s, id);
      SettleUnspends(s, id, ADMIN_CANCEL_APPROVED);
    }
  }

  lemma {:induction false} CancelIsDecided(s: Ledger, id: nat, customer: nat, now: int)
    ensures Decide(s, Cancel(id, customer, now)) == DecideCancel(s, id, customer, now)
  {
    hide Matching, Fits, DecideFinalize, DecideReconcile, DecideCancel, DecideAdminCancel, DecideApprove, DecideReject;
    hide DecideExpire, DecideReschedule, DecideReport, DecideSaveDraft, DecideStatus, DecideCreate, DecideDeposit;
  }

  lemma {:induction false} AdminCancelIsDecided(s: Ledger, id: nat, now: int)
    ensures Decide(s, AdminCancel(id, now)) == DecideAdminCancel(s, id, now)
  {
    hide Matching, Fits, DecideFinalize, DecideReconcile, DecideCancel, DecideAdminCancel, DecideApprove, DecideReject;
    hide DecideExpire, DecideReschedule, DecideReport, DecideSaveDraft, DecideStatus, DecideCreate, DecideDeposit;
  }

  // ---------------------------------------------------------------- finalization, refund, deposit

  /**
   A finalization succeeds iff the campaign is a draft and free money and credit cover its cost. Free
   money goes first, and the campaign waits with the audience it paid for.
   */
  lemma {:induction false} FinalizeEffect(s: Ledger, id: nat, quote: Quote, facts: PriceFacts)
    requires Inv(s)
    ensures
      var e := Finalize(id, quote, facts);
      var t := Step(s, e);
      var b := if id < |s.campaigns| then BalanceOf(s, s.campaigns[id].customer) else Balance(0, 0, 0, 0, 0, 0);
      && (Succeeds(s, e) <==>
            && (HasStatus(s, id, Initiated) || HasStatus(s, id, InProgress))
            && b.free + b.credit >= quote.totalCost)
      && (if !Succeeds(s, e) then t == s
          else
            var n := quote.totalCost;
            var after :=
              if n <= b.free then Balance(b.free - n, b.frozen + n, b.locked, b.credit, b.spent, b.agency)
              else Balance(0, b.frozen + n, b.locked, b.credit - (n - b.free), b.spent, b.agency);
            Pays(s, t, id, s.campaigns[id].(status := WaitingForApproval, audience := Some(quote.audience)),
                 ReserveBudget, n, after, Some(facts)))
  {
    var d := DecideFinalize(s, id, quote, facts);
    if id < |s.campaigns| { OwnerHasWallet(s, id); }
    FinalizeIsDecided(s, id, quote, facts);
    DecidedStep(s, Finalize(id, quote, facts), d);
    NothingChanges(s);
    hide Inv, Decide, Step, Succeeds, Fits, Freeze, Apply;
    if d.outcome.Done? {
      FreeMoneyFirst(s.wallets[s.campaigns[id].customer], quote.totalCost);
      PaidStep(s, d.change);
    }
  }

  lemma {:induction false} FreeMoneyFirst(b: Balance, n: nat)
    requires b.free + b.credit >= n
    ensures Freeze(b, n) ==
      if n <= b.free then Balance(b.free - n, b.frozen + n, b.locked, b.credit, b.spent, b.agency)
      else Balance(0, b.frozen + n, b.locked, b.credit - (n - b.free), b.spent, b.agency)
  {
  }

  lemma {:induction false} PaidStep(s: Ledger, d: Change)
    requires d.Pay? && Fits(s, d)
    ensures Pays(s, Apply(s, d), d.id, d.campaign, d.kind, d.amount, d.after, d.facts)
  {
    hide Keeps;
  }

  lemma {:induction false} FinalizeIsDecided(s: Ledger, id: nat, quote: Quote, facts: PriceFacts)
    ensures Decide(s, Finalize(id, quote, facts)) == DecideFinalize(s, id, quote, facts)
  {
    hide Matching, Fits, DecideFinalize, DecideReconcile, DecideCancel, DecideAdminCancel, DecideApprove, DecideReject;
    hide DecideExpire, DecideReschedule, DecideReport, DecideSaveDraft, DecideStatus, DecideCreate, DecideDeposit;
  }

  /** The missing messages' cost, at the rebuilt price, goes from spent to credit, and the campaign is marked. */
  predicate Refunds(s: Ledger, t: Ledger, id: nat, customer: nat, latest: PriceTable) {
    && id < |s.campaigns| && customer in s.wallets
    && var c, b := s.campaigns[id], s.wallets[customer];
    && c.customer == customer && c.audience.Some? && c.sent.Some? && c.sent.value < c.audience.value
    && var price := RefundPrice(s, customer, id, latest);
    && price.Some?
    && var n := (c.audience.value - c.sent.value) * price.value;
    && b.spent >= n
    && Pays(s, t, id, c.(refundMarked := true), RefundUndelivered, n,
            Balance(b.free, b.frozen, b.locked, b.credit + n, b.spent - n, b.agency), None)
  }

  /** A refund that succeeds does exactly that, and any other does nothing. */
  lemma {:induction false} ReconcileEffect(s: Ledger, id: nat, customer: nat, now: int, delay: int, latest: PriceTable)
    ensures
      var e := Reconcile(id, customer, now, delay, latest);
      if Succeeds(s, e) then Refunds(s, Step(s, e), id, customer, latest) else Step(s, e) == s
  {
    ReconcileIsDecided(s, id, customer, now, delay, latest);
    var d := DecideReconcile(s, id, customer, now, delay, latest);
    DecidedStep(s, Reconcile(id, customer, now, delay, latest), d);
    NothingChanges(s);
    hide Decide, Step, Succeeds, Fits, Matching, ReconcileGuard, RefundPrice, LatestFacts;
  }

  lemma {:induction false} ReconcileIsDecided(
      s: Ledger, id: nat, customer: nat, now: int, delay: int, latest: PriceTable)
    ensures Decide(s, Reconcile(id, customer, now, delay, latest)) ==
      DecideReconcile(s, id, customer, now, delay, latest)
  {
    hide Matching, Fits, DecideFinalize, DecideReconcile, DecideCancel, DecideAdminCancel, DecideApprove, DecideReject;
    hide DecideExpire, DecideReschedule, DecideReport, DecideSaveDraft, DecideStatus, DecideCreate, DecideDeposit;
  }

  /** A deposit adds each part to its own bucket, unless the total would no longer fit 64 bits. */
  lemma {:induction false} DepositEffect(s: Ledger, customer: nat, free: nat, locked: nat, credit: nat, agency: nat)
    ensures
      var e := Deposit(customer, free, locked, credit, agency);
      var t, b := Step(s, e), BalanceOf(s, customer);
      var amount := free + locked + credit + agency;
      && (Succeeds(s, e) <==>
            b.free + b.frozen + b.locked + b.credit + b.spent + b.agency + amount < 0x1_0000_0000_0000_0000)
      && (if !Succeeds(s, e) then t == s
          else
            var after := Balance(
              b.free + free, b.frozen, b.locked + locked, b.credit + credit, b.spent, b.agency + agency);
            && t.campaigns == s.campaigns && t.wallets == s.wallets[customer := after]
            && t.txs == s.txs + [Tx(WalletDeposit, customer, None, amount, b, after, None)])
  {
    hide Decide, Step, Succeeds, Fits, Keeps, Adds, Apply, DecideDeposit;
    var d := DecideDeposit(s, customer, free, locked, credit, agency);
    DepositDecision(s, customer, free, locked, credit, agency);
    DepositIsDecided(s, customer, free, locked, credit, agency);
    DecidedStep(s, Deposit(customer, free, locked, credit, agency), d);
    if d.outcome.Done? {
      ReceivedStep(s, customer, d.change.amount, d.change.after);
    } else {
      NothingChanges(s);
    }
  }

  lemma {:induction false} DepositDecision(
      s: Ledger, customer: nat, free: nat, locked: nat, credit: nat, agency: nat)
    ensures
      var b, amount := BalanceOf(s, customer), free + locked + credit + agency;
      var d := DecideDeposit(s, customer, free, locked, credit, agency);
      && (d.outcome.Done? <==>
            b.free + b.frozen + b.locked + b.credit + b.spent + b.agency + amount < 0x1_0000_0000_0000_0000)
      && (!d.outcome.Done? ==> d.change == Nothing)
      && (d.outcome.Done? ==> d.change == Receive(customer, amount, Balance(
            b.free + free, b.frozen, b.locked + locked, b.credit + credit, b.spent, b.agency + agency)))
  {
    hide Fits, BalanceOf;
  }

  lemma {:induction false} DepositIsDecided(
      s: Ledger, customer: nat, free: nat, locked: nat, credit: nat, agency: nat)
    ensures
      Decide(s, Deposit(customer, free, locked, credit, agency)) ==
      DecideDeposit(s, customer, free, locked, credit, agency)
  {
    hide Matching, Fits, DecideFinalize, DecideReconcile, DecideCancel, DecideAdminCancel, DecideApprove, DecideReject;
    hide DecideExpire, DecideReschedule, DecideReport, DecideSaveDraft, DecideStatus, DecideCreate, DecideDeposit;
  }

  lemma {:induction false} ReceivedStep(s: Ledger, customer: nat, amount: nat, after: Balance)
    ensures Fits(s, Receive(customer, amount, after)) ==>
      var t := Apply(s, Receive(customer, amount, after));
      && t.campaigns == s.campaigns && t.wallets == s.wallets[customer := after]
      && t.txs == s.txs + [Tx(WalletDeposit, customer, None, amount, BalanceOf(s, customer), after, None)]
  {
    hide Fits, BalanceOf;
  }

  // ---------------------------------------------------------------- steps that move no money

  /** Only the campaign changes. */
  predicate Becomes(s: Ledger, t: Ledger, id: nat, c: Campaign) {
    id < |s.campaigns| && t.campaigns == s.campaigns[id := c] && t.wallets == s.wallets && t.txs == s.txs
  }

  /** A campaign starts as an empty draft, for a customer with a wallet. */
  lemma {:induction false} CreateEffect(s: Ledger, customer: nat)
    ensures
      Step(s, Create(customer)) ==
      if customer in s.wallets
      then Ledger(s.campaigns + [Campaign(customer, Initiated, None, None, None, false)], s.wallets, s.txs) else s
  {
  }

  /** A draft save succeeds iff the campaign is a draft, and keeps the schedule that it does not name. */
  lemma {:induction false} SaveDraftEffect(s: Ledger, id: nat, at: Option<int>)
    ensures
      var e := SaveDraft(id, at);
      && (Succeeds(s, e) <==> HasStatus(s, id, Initiated) || HasStatus(s, id, InProgress))
      && (if !Succeeds(s, e) then Step(s, e) == s
          else if at.Some? then Becomes(s, Step(s, e), id, s.campaigns[id].(status := InProgress, scheduleAt := at))
          else Becomes(s, Step(s, e), id, s.campaigns[id].(status := InProgress)))
  {
  }

  /** The step succeeds from exactly one status, and changes nothing but the status. */
  predicate Moves(s: Ledger, e: Event, id: nat, before: Status, after: Status) {
    && (Succeeds(s, e) <==> HasStatus(s, id, before))
    && (if Succeeds(s, e) then Becomes(s, Step(s, e), id, s.campaigns[id].(status := after)) else Step(s, e) == s)
  }

  lemma {:induction false} DecidedStep(s: Ledger, e: Event, d: Decision)
    requires Decide(s, e) == d
    ensures Fits(s, d.change) && Step(s, e) == Apply(s, d.change) && (Succeeds(s, e) <==> d.outcome.Done?)
  {
    hide Fits, Decide, Apply;
  }

  lemma {:induction false} NothingChanges(s: Ledger)
    ensures Fits(s, Nothing) && Apply(s, Nothing) == s
  {
  }

  /** An approved campaign starts running. */
  lemma {:induction false} RunningEffect(s: Ledger, id: nat)
    ensures Moves(s, MoveToRunning(id), id, Approved, Running)
  {
    hide Matching, Fits, DecideFinalize, DecideReconcile, DecideCancel, DecideAdminCancel, DecideApprove, DecideReject;
    hide DecideExpire, DecideReschedule, DecideReport, DecideSaveDraft, DecideCreate, DecideDeposit;
  }

  /** A running one is executed. */
  lemma {:induction false} ExecutedEffect(s: Ledger, id: nat)
    ensures Moves(s, MoveToExecuted(id), id, Running, Executed)
  {
    hide Matching, Fits, DecideFinalize, DecideReconcile, DecideCancel, DecideAdminCancel, DecideApprove, DecideReject;
    hide DecideExpire, DecideReschedule, DecideReport, DecideSaveDraft, DecideCreate, DecideDeposit;
  }

  /** Or approved again, when its execution could not start. */
  lemma {:induction false} RequeueEffect(s: Ledger, id: nat)
    ensures Moves(s, Requeue(id), id, Running, Approved)
  {
    hide Matching, Fits, DecideFinalize, DecideReconcile, DecideCancel, DecideAdminCancel, DecideApprove, DecideReject;
    hide DecideExpire, DecideReschedule, DecideReport, DecideSaveDraft, DecideCreate, DecideDeposit;
  }

  /** Or interrupted. */
  lemma {:induction false} InterruptEffect(s: Ledger, id: nat)
    ensures Moves(s, Interrupt(id), id, Running, Interrupted)
  {
    hide Matching, Fits, DecideFinalize, DecideReconcile, DecideCancel, DecideAdminCancel, DecideApprove, DecideReject;
    hide DecideExpire, DecideReschedule, DecideReport, DecideSaveDraft, DecideCreate, DecideDeposit;
  }

  /**
   A rescheduling succeeds iff the campaign is a draft, waits or is approved; its schedule, if any, is two
   minutes ahead or was missed while waiting; and the new one is two minutes ahead and in the day's window.
   */
  lemma {:induction false} RescheduleEffect(s: Ledger, id: nat, at: int, now: int, inWindow: bool)
    ensures
      var e := Reschedule(id, at, now, inWindow);
      && (Succeeds(s, e) <==>
            && id < |s.campaigns|
            && s.campaigns[id].status in {Initiated, InProgress, WaitingForApproval, Approved}
            && (|| s.campaigns[id].scheduleAt.None?
                || StartsAfter(s, id, now, 120_000_000_000)
                || (s.campaigns[id].status.WaitingForApproval? && s.campaigns[id].scheduleAt.value <= now))
            && at >= now + 120_000_000_000 && inWindow)
      && (if Succeeds(s, e) then Becomes(s, Step(s, e), id, s.campaigns[id].(scheduleAt := Some(at)))
          else Step(s, e) == s)
  {
    var e := Reschedule(id, at, now, inWindow);
    RescheduleIsDecided(s, id, at, now, inWindow);
    DecidedStep(s, e, DecideReschedule(s, id, at, now, inWindow));
    NothingChanges(s);
    hide Decide, Step, Succeeds, Fits;
  }

  lemma {:induction false} RescheduleIsDecided(s: Ledger, id: nat, at: int, now: int, inWindow: bool)
    ensures Decide(s, Reschedule(id, at, now, inWindow)) == DecideReschedule(s, id, at, now, inWindow)
  {
    hide Matching, Fits, DecideFinalize, DecideReconcile, DecideCancel, DecideAdminCancel, DecideApprove, DecideReject;
    hide DecideExpire, DecideReschedule, DecideReport, DecideSaveDraft, DecideStatus, DecideCreate, DecideDeposit;
  }

  /** A delivery report replaces what it names. */
  lemma {:induction false} ReportEffect(s: Ledger, id: nat, sent: Option<nat>, marker: Option<bool>)
    ensures
      var t := Step(s, ReportDelivery(id, sent, marker));
      if id >= |s.campaigns| then t == s
      else
        var c := s.campaigns[id];
        Becomes(s, t, id, Campaign(
          c.customer, c.status, c.scheduleAt, c.audience, if sent.Some? then sent else c.sent,
          if marker == None then c.refundMarked else marker == Some(true)))
  {
    hide Matching, Settle, Keeps, Adds, Freeze, Move, DecideFinalize, DecideReconcile, DecideReschedule;
    hide DecideCancel, DecideAdminCancel, DecideApprove, DecideReject, DecideExpire, DecideSaveDraft, DecideStatus;
  }
}
