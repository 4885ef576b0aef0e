/**
 The campaign steps in the order the program performs them, on a store it updates in place. Each
 method is one database transaction: when a later check fails, what was already written is rolled
 back. Every method is proved to take exactly the ledger step it stands for.
 */
module LedgerStore {
  import opened CampaignLedger
  import opened CampaignPricing
  import opened LedgerEffects
  import opened LedgerInvariant
  import opened Wrappers

  /** The store has taken exactly the step a decision stands for: the next ledger, and the outcome. */
  ghost predicate Took(before: Ledger, after: Ledger, d: Decision, o: Outcome) {
    Fits(before, d.change) && after == Apply(before, d.change) && o == d.outcome
  }

  lemma {:induction false} RefusalsChangeNothing(s: Ledger, o: Outcome)
    ensures Took(s, s, Refuse(o), o)
  {
  }

  lemma {:induction false} ExpireTakesAStep(before: Ledger, after: Ledger, id: nat, customer: nat, cutoff: int,
      o: Outcome)
    requires Took(before, after, DecideExpire(before, id, customer, cutoff), o)
    ensures after == Step(before, Expire(id, customer, cutoff)) &&
      o == Decide(before, Expire(id, customer, cutoff)).outcome
  {
  }

  /** What taking an owner's cancellation comes to on a consistent ledger. */
  lemma {:induction false} CancelTaken(before: Ledger, id: nat, customer: nat, now: int)
    requires Inv(before)
    ensures forall after, o :: Took(before, after, DecideCancel(before, id, customer, now), o) ==>
      && (o.Done? <==> OwnerMayCancel(before, id, customer, now))
      && (if o.Done? then Cancels(before, after, id) else after == before)
  {
    CancelEffect(before, id, customer, now);
    CancelIsDecided(before, id, customer, now);
    hide Inv, Decide, DecideCancel, Apply, Fits;
  }

  /** And an administrator's. */
  lemma {:induction false} AdminCancelTaken(before: Ledger, id: nat, now: int)
    requires Inv(before)
    ensures forall after, o :: Took(before, after, DecideAdminCancel(before, id, now), o) ==>
      && (o.Done? <==> AdminMayCancel(before, id, now))
      && (if o.Done? then AdminCancels(before, after, id) else after == before)
  {
    AdminCancelEffect(before, id, now);
    AdminCancelIsDecided(before, id, now);
    hide Inv, Decide, DecideAdminCancel, Apply, Fits;
  }

  class Store {
    var campaigns: seq<Campaign>
    var wallets: map<nat, Balance>
    var txs: seq<Tx>

    ghost function View(): Ledger
      reads this
    {
      Ledger(campaigns, wallets, txs)
    }

    constructor ()
      ensures View() == Ledger([], map[], [])
    {
      campaigns, wallets, txs := [], map[], [];
    }

    /** A balance snapshot and the transaction that explains it. */
    method Post(kind: TxKind, id: nat, amount: nat, after: Balance, facts: Option<PriceFacts>)
      requires id < |campaigns| && campaigns[id].customer in wallets
      modifies this`wallets, this`txs
      ensures wallets == old(wallets)[campaigns[id].customer := after]
      ensures
        var w := campaigns[id].customer;
        txs == old(txs) + [Tx(kind, w, Some(id), amount, old(wallets)[w], after, facts)]
    {
      var w := campaigns[id].customer;
      var before := wallets[w];
      wallets := wallets[w := after];
      txs := txs + [Tx(kind, w, Some(id), amount, before, after, facts)];
    }

    /** Draft save: the status is tested and overwritten under one row lock. */
    method SaveDraft(id: nat, at: Option<int>) returns (o: Outcome)
      modifies this
      ensures Took(old(View()), View(), DecideSaveDraft(old(View()), id, at), o)
    {
      hide Keeps, Adds;
      if id >= |campaigns| { return CampaignNotFound; }
      var c := campaigns[id];
      if !c.status.Editable() { return UpdateNotAllowed; }
      if at.Some? { c := c.(scheduleAt := at); }
      campaigns := campaigns[id := c.(status := InProgress)];
      return Done;
    }

    /** The campaign is saved as waiting before the wallet is read; a shortage rolls that back. */
    method Finalize(id: nat, quote: Quote, facts: PriceFacts) returns (o: Outcome)
      modifies this
      ensures Took(old(View()), View(), DecideFinalize(old(View()), id, quote, facts), o)
    {
      hide Keeps, Adds;
      if id >= |campaigns| { return CampaignNotFound; }
      var saved := campaigns;
      var c := campaigns[id];
      if !c.status.Editable() { return UpdateNotAllowed; }
      campaigns := campaigns[id := c.(status := WaitingForApproval, audience := Some(quote.audience))];
      if c.customer !in wallets {
        campaigns := saved;
        return WalletNotFound;
      }
      var latest := wallets[c.customer];
      if latest.free + latest.credit < quote.totalCost {
        campaigns := saved;
        return InsufficientFunds;
      }
      var newFree, newCredit, remaining := latest.free, latest.credit, quote.totalCost;
      if remaining <= newFree {
        newFree := newFree - remaining;
      } else {
        remaining := remaining - newFree;
        newFree := 0;
        newCredit := newCredit - remaining;
      }
      var after := Balance(newFree, latest.frozen + quote.totalCost, latest.locked, newCredit, latest.spent,
        latest.agency);
      FreezeIs(latest, quote.totalCost, after);
      Post(ReserveBudget, id, quote.totalCost, after, Some(facts));
      return Done;
    }

    /** The one transaction to settle is looked up, and the wallet must hold its amount. */
    method CheckSettlement(id: nat, m: Settlement) returns (o: Outcome, amount: nat)
      requires id < |campaigns|
      ensures o == SettlementGuard(View(), id, m)
      ensures o.Done? ==> amount == Matching(txs, campaigns[id].customer, id, m.lookup)[0].amount
    {
      hide Matching;
      var customer := campaigns[id].customer;
      amount := 0;
      if m.walletFirst && customer !in wallets { return WalletNotFound, 0; }
      var found := Matching(txs, customer, id, m.lookup);
      if |found| == 0 { return if m.lookup.ReserveBudget? then FreezeNotFound else FeeNotFound, 0; }
      if |found| > 1 { return if m.lookup.ReserveBudget? then MultipleFreezes else MultipleFees, 0; }
      if customer !in wallets { return WalletNotFound, 0; }
      amount := found[0].amount;
      if wallets[customer].Get(m.src) < amount { return InsufficientFunds, amount; }
      return Done, amount;
    }

    /** The common tail of approval, rejection, both cancellations and expiry. */
    method SettleBudget(id: nat, m: Settlement) returns (o: Outcome)
      requires id < |campaigns| && m.src != m.dst && m.record !in {ReserveBudget, WalletDeposit}
      modifies this
      ensures Took(old(View()), View(), Settle(old(View()), id, m), o)
    {
      hide Matching, Keeps, Adds, SettlementGuard;
      var amount;
      o, amount := CheckSettlement(id, m);
      if !o.Done? { return; }
      var c := campaigns[id];
      var after := Put(wallets[c.customer], m.src, wallets[c.customer].Get(m.src) - amount);
      after := Put(after, m.dst, after.Get(m.dst) + amount);
      Post(m.record, id, amount, after, None);
      campaigns := campaigns[id := c.(status := m.status)];
    }

    method Approve(id: nat, now: int) returns (o: Outcome)
      modifies this
      ensures Took(old(View()), View(), DecideApprove(old(View()), id, now), o)
    {
      hide Settle, Took;
      forall refusal: Outcome ensures Took(View(), View(), Refuse(refusal), refusal) {
        RefusalsChangeNothing(View(), refusal);
      }
      if id >= |campaigns| { return CampaignNotFound; }
      var c := campaigns[id];
      if !c.status.WaitingForApproval? { return NotWaitingForApproval; }
      if c.scheduleAt.None? { return ScheduleTooSoon; }
      if c.scheduleAt.value < now { return ScheduleTooSoon; }
      o := SettleBudget(id, APPROVAL);
    }

    method Reject(id: nat) returns (o: Outcome)
      modifies this
      ensures Took(old(View()), View(), DecideReject(old(View()), id), o)
    {
      hide Settle, Took;
      forall refusal: Outcome ensures Took(View(), View(), Refuse(refusal), refusal) {
        RefusalsChangeNothing(View(), refusal);
      }
      if id >= |campaigns| { return CampaignNotFound; }
      if !campaigns[id].status.WaitingForApproval? { return NotWaitingForApproval; }
      o := SettleBudget(id, REJECTION);
    }

    method Cancel(id: nat, customer: nat, now: int) returns (o: Outcome)
      modifies this
      ensures Took(old(View()), View(), DecideCancel(old(View()), id, customer, now), o)
      ensures Inv(old(View())) ==>
        && (o.Done? <==> OwnerMayCancel(old(View()), id, customer, now))
        && (if o.Done? then Cancels(old(View()), View(), id) else View() == old(View()))
    {
      if Inv(View()) { CancelTaken(View(), id, customer, now); }
      hide Settle, Took, Inv, OwnerMayCancel, Cancels;
      forall refusal: Outcome ensures Took(View(), View(), Refuse(refusal), refusal) {
        RefusalsChangeNothing(View(), refusal);
      }
      if id >= |campaigns| { return CampaignNotFound; }
      var c := campaigns[id];
      if c.customer != customer { return AccessDenied; }
      if !c.status.WaitingForApproval? && !c.status.Approved? { return NotWaitingForApproval; }
      if c.customer !in wallets {
        assert c.status.WaitingForApproval? ==> Settle(View(), id, CANCEL_WAITING) == Refuse(WalletNotFound);
        return WalletNotFound;
      }
      if c.status.WaitingForApproval? {
        o := SettleBudget(id, CANCEL_WAITING);
      } else {
        if c.scheduleAt.None? { return NotWaitingForApproval; }
        if c.scheduleAt.value < now + CUSTOMER_CANCEL_LEAD { return ScheduleTooSoon; }
        o := SettleBudget(id, CANCEL_APPROVED);
      }
    }

    method AdminCancel(id: nat, now: int) returns (o: Outcome)
      modifies this
      ensures Took(old(View()), View(), DecideAdminCancel(old(View()), id, now), o)
      ensures Inv(old(View())) ==>
        && (o.Done? <==> AdminMayCancel(old(View()), id, now))
        && (if o.Done? then AdminCancels(old(View()), View(), id) else View() == old(View()))
    {
      if Inv(View()) { AdminCancelTaken(View(), id, now); }
      hide Settle, Took, Inv, AdminMayCancel, AdminCancels;
      forall refusal: Outcome ensures Took(View(), View(), Refuse(refusal), refusal) {
        RefusalsChangeNothing(View(), refusal);
      }
      if id >= |campaigns| { return CampaignNotFound; }
      var c := campaigns[id];
      if MissedPendingApproval(c, now) {
        o := SettleBudget(id, ADMIN_CANCEL_MISSED);
        return;
      }
      if !c.status.Approved? { return NotApproved; }
      if c.scheduleAt.None? { return ScheduleMissing; }
      if c.scheduleAt.value - now < ADMIN_CANCEL_LEAD { return ScheduleTooClose; }
      o := SettleBudget(id, ADMIN_CANCEL_APPROVED);
    }

    /** One iteration of the expiry sweep, tested again under the row lock. */
    method Expire(id: nat, customer: nat, cutoff: int) returns (o: Outcome)
      modifies this
      ensures Took(old(View()), View(), DecideExpire(old(View()), id, customer, cutoff), o)
    {
      hide Settle, Took;
      forall refusal: Outcome ensures Took(View(), View(), Refuse(refusal), refusal) {
        RefusalsChangeNothing(View(), refusal);
      }
      if id >= |campaigns| { return CampaignNotFound; }
      var c := campaigns[id];
      if c.customer != customer { return AccessDenied; }
      if !c.status.WaitingForApproval? { return Noop; }
      if c.scheduleAt.None? || c.scheduleAt.value >= cutoff { return Noop; }
      o := SettleBudget(id, EXPIRY);
    }

    /** One row of the sweep: an overdue campaign expires, any other stays. */
    method ExpireIfOverdue(i: nat, customer: nat, cutoff: int) returns (o: Outcome)
      requires Inv(View()) && i < |campaigns|
      modifies this
      ensures Inv(View()) && o == Done
      ensures campaigns == old(campaigns)[i := SweptOne(old(campaigns)[i], customer, cutoff)]
    {
      hide Inv, Step, Decide, DecideExpire, Took;
      if !Overdue(campaigns[i], customer, cutoff) { return Done; }
      ghost var before := View();
      OverdueIsExpired(before, i, customer, cutoff);
      StepKeepsInv(before, Event.Expire(i, customer, cutoff));
      o := Expire(i, customer, cutoff);
      ExpireTakesAStep(before, View(), i, customer, cutoff, o);
    }

    /**
     The sweep over a customer's waiting campaigns. It never stops early, leaves no overdue campaign
     waiting, expires nothing else, and keeps the ledger consistent.
     */
    method ExpireCustomerCampaigns(customer: nat, cutoff: int) returns (o: Outcome)
      requires Inv(View())
      modifies this
      ensures o == Done && Inv(View())
      ensures campaigns == Swept(old(campaigns), customer, cutoff)
    {
      hide *;
      var rows := campaigns;
      var i := 0;
      SweptStarts(rows, customer, cutoff);
      while i < |rows|
        invariant 0 <= i <= |rows| == |campaigns|
        invariant Inv(View())
        invariant campaigns == Swept(rows[..i], customer, cutoff) + rows[i..]
      {
        SweptAdvances(rows, i, campaigns, customer, cutoff);
        o := ExpireIfOverdue(i, customer, cutoff);
        if !o.Done? { return; }
        i := i + 1;
      }
      assert rows[..i] == rows && rows[i..] == [];
      return Done;
    }

    method MoveToRunning(id: nat) returns (o: Outcome)
      modifies this
      ensures Took(old(View()), View(), DecideStatus(old(View()), id, Approved, Running, NotApproved), o)
    {
      hide Keeps, Adds;
      if id >= |campaigns| { return CampaignNotFound; }
      if campaigns[id].status != Approved { return NotApproved; }
      campaigns := campaigns[id := campaigns[id].(status := Running)];
      return Done;
    }

    method MoveToExecuted(id: nat) returns (o: Outcome)
      modifies this
      ensures Took(old(View()), View(), DecideStatus(old(View()), id, Running, Executed, NotRunning), o)
    {
      hide Keeps, Adds;
      if id >= |campaigns| { return CampaignNotFound; }
      if campaigns[id].status != Running { return NotRunning; }
      campaigns := campaigns[id := campaigns[id].(status := Executed)];
      return Done;
    }

    method Reschedule(id: nat, at: int, now: int, inWindow: bool) returns (o: Outcome)
      modifies this
      ensures Took(old(View()), View(), DecideReschedule(old(View()), id, at, now, inWindow), o)
    {
      hide Keeps, Adds;
      if id >= |campaigns| { return CampaignNotFound; }
      var c := campaigns[id];
      if !c.status.Editable() && !c.status.WaitingForApproval? && !c.status.Approved? { return RescheduleNotAllowed; }
      if c.scheduleAt.Some? && !MissedPendingApproval(c, now) {
        if c.scheduleAt.value - now < RESCHEDULE_LEAD { return ScheduleTooClose; }
      }
      if at < now + RESCHEDULE_LEAD { return ScheduleTooSoon; }
      if !inWindow { return ScheduleOutsideWindow; }
      campaigns := campaigns[id := c.(scheduleAt := Some(at))];
      return Done;
    }

    /** Statistics are merged key by key into what is stored. */
    method UpdateStatistics(id: nat, sent: Option<nat>, marker: Option<bool>) returns (o: Outcome)
      modifies this
      ensures Took(old(View()), View(), DecideReport(old(View()), id, sent, marker), o)
    {
      hide Keeps, Adds;
      if id >= |campaigns| { return CampaignNotFound; }
      if sent.Some? { campaigns := campaigns[id := campaigns[id].(sent := sent)]; }
      if marker.Some? { campaigns := campaigns[id := campaigns[id].(refundMarked := marker.value)]; }
      return Done;
    }

    /** The refund job's tests of the campaign and its delivery report, in order. */
    method CheckEligibility(id: nat, customer: nat, now: int, delay: int) returns (o: Outcome)
      ensures o == RefundEligibility(View(), id, customer, now, delay)
      ensures o.Done? <==>
        && id < |campaigns| && campaigns[id].customer == customer && campaigns[id].status.Executed?
        && Eligible(campaigns[id], Matching(txs, customer, id, RefundUndelivered), now, delay)
      ensures o.ManualReview? ==>
        && id < |campaigns| && campaigns[id].customer == customer
        && (campaigns[id].scheduleAt.None? || campaigns[id].audience.None? || campaigns[id].refundMarked)
    {
      hide Matching;
      if id >= |campaigns| { return Noop; }
      var c := campaigns[id];
      if c.customer != customer { return Noop; }
      if !c.status.Executed? { return Noop; }
      if c.scheduleAt.None? { return ManualReview; }
      if now < c.scheduleAt.value + delay { return NotEligibleYet; }
      if c.audience.None? { return ManualReview; }
      if c.audience.value == 0 { return Noop; }
      if |Matching(txs, customer, id, RefundUndelivered)| > 0 { return Noop; }
      if c.refundMarked { return ManualReview; }
      if c.sent.None? { return StatisticsMissing; }
      if c.sent.value >= c.audience.value { return Noop; }
      return Done;
    }

    /** Its tests of the price, the fee and the wallet, and the refund they allow. */
    method CheckPayable(id: nat, customer: nat, missing: nat, price: Option<Uint64>) returns (o: Outcome, refund: nat)
      ensures o == RefundPayable(View(), id, customer, missing, price)
      ensures o.Done? <==>
        && price.Some? && customer in wallets && Matching(txs, customer, id, ConsumeBudget) != []
        && 0 < missing * price.value <= MAX_UINT64
        && missing * price.value <= LastOf(Matching(txs, customer, id, ConsumeBudget)).amount
        && missing * price.value <= wallets[customer].spent
      ensures o.Done? ==> refund == missing * price.value
    {
      hide Matching;
      if price.Some? { OverflowGuardIsExact(missing, price.value); }
      if price.None? || price.value == 0 { return ManualReview, 0; }
      if missing > MAX_UINT64 / price.value { return ManualReview, 0; }
      refund := missing * price.value;
      if refund == 0 { return Noop, 0; }
      var fees := Matching(txs, customer, id, ConsumeBudget);
      if fees == [] { return ManualReview, refund; }
      if fees[|fees| - 1].amount < refund { return ManualReview, refund; }
      if customer !in wallets { return WalletNotFound, refund; }
      if wallets[customer].spent < refund { return ManualReview, refund; }
      return Done, refund;
    }

    /** The refund job: spent becomes credit, and the campaign is marked. */
    method Reconcile(id: nat, customer: nat, now: int, delay: int, latest: PriceTable) returns (o: Outcome)
      modifies this
      ensures Took(old(View()), View(), DecideReconcile(old(View()), id, customer, now, delay, latest), o)
    {
      hide Matching, RefundPrice, RefundEligibility, RefundPayable, Keeps, Adds;
      o := CheckEligibility(id, customer, now, delay);
      if !o.Done? { return; }
      var c := campaigns[id];
      var refund;
      var price := RefundPrice(Ledger(campaigns, wallets, txs), customer, id, latest);
      o, refund := CheckPayable(id, customer, c.audience.value - c.sent.value, price);
      if !o.Done? { return; }
      var b := wallets[customer];
      Post(RefundUndelivered, id, refund, b.(spent := b.spent - refund, credit := b.credit + refund), None);
      campaigns := campaigns[id := c.(refundMarked := true)];
    }
  }

  lemma {:induction false} FreezeIs(b: Balance, cost: nat, after: Balance)
    requires b.free + b.credit >= cost
    requires after ==
      if cost <= b.free then b.(free := b.free - cost, frozen := b.frozen + cost)
      else b.(free := 0, credit := b.credit - (cost - b.free), frozen := b.frozen + cost)
    ensures after == Freeze(b, cost)
  {
  }

  predicate Overdue(c: Campaign, customer: nat, cutoff: int) {
    c.customer == customer && c.status.WaitingForApproval? && c.scheduleAt.Some? && c.scheduleAt.value < cutoff
  }

  function SweptOne(c: Campaign, customer: nat, cutoff: int): Campaign {
    if Overdue(c, customer, cutoff) then c.(status := Expired) else c
  }

  /** The campaigns after a sweep: the overdue waiting ones of the customer have expired. */
  function Swept(cs: seq<Campaign>, customer: nat, cutoff: int): (r: seq<Campaign>)
    ensures |r| == |cs|
  {
    seq(|cs|, i requires 0 <= i < |cs| => SweptOne(cs[i], customer, cutoff))
  }

  lemma {:induction false} SweptStarts(rows: seq<Campaign>, customer: nat, cutoff: int)
    ensures rows == Swept(rows[..0], customer, cutoff) + rows[0..]
  {
  }

  lemma {:induction false} SweptAdvances(rows: seq<Campaign>, i: nat, now: seq<Campaign>, customer: nat, cutoff: int)
    requires i < |rows| && now == Swept(rows[..i], customer, cutoff) + rows[i..]
    ensures |now| == |rows|
    ensures now[i := SweptOne(now[i], customer, cutoff)] == Swept(rows[..i + 1], customer, cutoff) + rows[i + 1..]
  {
  }

  lemma {:induction false} OverdueIsExpired(s: Ledger, id: nat, customer: nat, cutoff: int)
    requires Inv(s) && id < |s.campaigns| && Overdue(s.campaigns[id], customer, cutoff)
    ensures
      var e := Expire(id, customer, cutoff);
      Decide(s, e).outcome.Done? &&
      Step(s, e).campaigns == s.campaigns[id := s.campaigns[id].(status := Expired)]
  {
    hide Inv, Matching, SettlementGuard, Move;
    SettlementGuardsNeverFire(s, id, EXPIRY);
  }
}
