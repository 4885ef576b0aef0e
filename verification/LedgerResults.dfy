/**
 The results about whole runs of the ledger: money is conserved, every reachable ledger is accounted
 for, what a release gives back after a freeze, and what an under-delivered campaign finally costs.
 */
module LedgerResults {
  import opened CampaignLedger
  import opened CampaignPricing
  import opened LedgerInvariant
  import opened Numbers
  import opened Wrappers

  const EMPTY := Ledger([], map[], [])

  // ---------------------------------------------------------------- conservation

  /** Money that event `e` brings into wallet `w`. */
  function Brought(s: Ledger, e: Event, w: nat): nat {
    if e.Deposit? && e.customer == w && Decide(s, e).outcome.Done? then e.free + e.locked + e.credit + e.agency else 0
  }

  function BroughtByRun(s: Ledger, es: seq<Event>, w: nat): nat
    decreases |es|
  {
    if es == [] then 0 else Brought(s, es[0], w) + BroughtByRun(Step(s, es[0]), es[1..], w)
  }

  lemma {:induction false} ChangeConserves(s: Ledger, d: Change, w: nat)
    requires Fits(s, d)
    ensures
      BalanceOf(Apply(s, d), w).Total() ==
      BalanceOf(s, w).Total() + if d.Receive? && d.customer == w then d.amount else 0
  {
    hide Keeps, Adds, Apply, Balance.Total, Fits;
    if w in Apply(s, d).wallets {
      if d.Pay? {
        PayFacts(s, d, w);
        TotalKept(s.wallets[w], d.after);
      } else if d.Receive? {
        ReceiveFacts(s, d, w);
        TotalAdded(BalanceOf(s, w), d.amount, d.after);
      }
    } else {
      WalletsStay(s, d, w);
    }
  }

  lemma {:induction false} WalletsStay(s: Ledger, d: Change, w: nat)
    requires Fits(s, d) && w !in Apply(s, d).wallets
    ensures w !in s.wallets && (d.Receive? ==> d.customer != w)
  {
    hide Keeps, Adds;
  }

  lemma {:induction false} TotalKept(before: Balance, after: Balance)
    ensures Keeps(before, after) ==> after.Total() == before.Total()
  {
  }

  lemma {:induction false} TotalAdded(before: Balance, amount: nat, after: Balance)
    ensures Adds(before, amount, after) ==> after.Total() == before.Total() + amount
  {
  }

  /** The only decision that brings money in is an accepted deposit, and it brings the sum of its parts. */
  lemma {:induction false} OnlyDepositsReceive(s: Ledger, e: Event, w: nat)
    ensures
      var d := Decide(s, e).change;
      Brought(s, e, w) == if d.Receive? && d.customer == w then d.amount else 0
  {
    hide DecideApprove, DecideReject, DecideExpire, DecideCancel, DecideAdminCancel, DecideReconcile, DecideStatus,
      DecideSaveDraft, DecideReschedule, DecideReport, Fits, Freeze, Balance.Total;
  }

  /** A step moves money between the buckets of a wallet; only a deposit changes their sum. */
  lemma {:induction false} StepConserves(s: Ledger, e: Event, w: nat)
    ensures BalanceOf(Step(s, e), w).Total() == BalanceOf(s, w).Total() + Brought(s, e, w)
  {
    hide Decide, Brought, Apply, BalanceOf, Fits;
    OnlyDepositsReceive(s, e, w);
    ChangeConserves(s, Decide(s, e).change, w);
  }

  lemma {:induction false} RunConserves(s: Ledger, es: seq<Event>, w: nat)
    ensures BalanceOf(Run(s, es), w).Total() == BalanceOf(s, w).Total() + BroughtByRun(s, es, w)
    decreases |es|
  {
    hide Step, Brought, BalanceOf;
    if es != [] {
      StepConserves(s, es[0], w);
      RunConserves(Step(s, es[0]), es[1..], w);
    }
  }

  // ---------------------------------------------------------------- accounting from the empty ledger

  lemma {:induction false} EmptyIsConsistent()
    ensures Inv(EMPTY)
  {
  }

  /**
   After any run from an empty ledger every wallet is explained: frozen is what waiting campaigns owe,
   spent is the fees of charged campaigns less their refunds, all deposited money is still there, and
   the chain of transaction snapshots leads to the current balance.
   */
  lemma {:induction false} EveryRunExplainsItsWallets(es: seq<Event>, w: nat)
    requires w in Run(EMPTY, es).wallets
    ensures
      var s := Run(EMPTY, es);
      && s.wallets[w].frozen == Sum(FrozenShares(s, w))
      && s.wallets[w].spent == Sum(SpentShares(s, w))
      && s.wallets[w].Total() == BroughtByRun(EMPTY, es, w)
      && Audit(s.txs, w, s.wallets[w])
  {
    hide Inv, Run, BroughtByRun, Sum, FrozenShares, SpentShares, Audit, Balance.Total;
    EmptyIsConsistent();
    RunKeepsInv(EMPTY, es);
    RunConserves(EMPTY, es, w);
    EmptyHoldsNothing(w);
    WalletExplained(Run(EMPTY, es), w);
  }

  lemma {:induction false} EmptyHoldsNothing(w: nat)
    ensures BalanceOf(EMPTY, w).Total() == 0
  {
  }

  /** After any run: one freeze per finalized campaign, at most one refund, and never beyond the fee. */
  lemma {:induction false} EveryRunKeepsBooks(es: seq<Event>, id: nat)
    requires id < |Run(EMPTY, es).campaigns|
    ensures AccountOf(Run(EMPTY, es), id).Kept()
  {
    hide Inv, Run, AccountOf;
    EmptyIsConsistent();
    RunKeepsInv(EMPTY, es);
    CampaignKept(Run(EMPTY, es), id);
  }

  /** After any run, whatever comes next meets no missing or repeated freeze or fee and no shortage. */
  lemma {:induction false} NoReleaseGuardEverFires(es: seq<Event>, next: Event)
    ensures
      var o := Decide(Run(EMPTY, es), next).outcome;
      Unexpected(o) ==> next.Create? || (next.Finalize? && o.InsufficientFunds?)
  {
    hide Inv, Run, Decide;
    EmptyIsConsistent();
    RunKeepsInv(EMPTY, es);
    StepKeepsInv(Run(EMPTY, es), next);
  }

  // ---------------------------------------------------------------- a freeze and its release

  /** The part of a freeze that came from the free balance. */
  function FromFree(b: Balance, cost: nat): nat {
    if cost <= b.free then cost else b.free
  }

  /** The unused routine that would return a refund to the buckets its freeze drained. */
  function ComputeFreezeRefundSplit(freeze: Tx, refund: nat): (split: (nat, nat))
    ensures split.0 + split.1 == refund
  {
    if refund == 0 then (0, 0)
    else
      var freeReduced := if freeze.before.free > freeze.after.free then freeze.before.free - freeze.after.free else 0;
      var freeRefund := if freeReduced > refund then refund else freeReduced;
      (freeRefund, refund - freeRefund)
  }

  /** Used on a whole freeze, the split is its exact inverse. */
  lemma {:induction false} SplitUndoesTheFreeze(b: Balance, cost: nat, freeze: Tx)
    requires b.free + b.credit >= cost
    requires freeze.before == b && freeze.after == Freeze(b, cost)
    ensures
      var (free, credit) := ComputeFreezeRefundSplit(freeze, cost);
      var f := Freeze(b, cost);
      f.(free := f.free + free, credit := f.credit + credit, frozen := f.frozen - cost) == b
  {
  }

  lemma {:induction false} FreezeThenCredit(b: Balance, cost: nat)
    requires b.free + b.credit >= cost
    ensures
      var k := FromFree(b, cost);
      Move(Freeze(b, cost), Frozen, Credit, cost) == b.(free := b.free - k, credit := b.credit + k)
  {
  }

  /** The four ways a waiting campaign gives its frozen budget back. */
  predicate ReleasesFreeze(m: Settlement) {
    m in {REJECTION, EXPIRY, CANCEL_WAITING, ADMIN_CANCEL_MISSED}
  }

  lemma {:induction false} FinalizeEffect(s: Ledger, id: nat, quote: Quote, facts: PriceFacts)
    requires Inv(s) && DecideFinalize(s, id, quote, facts).outcome == Done
    ensures
      var e := Finalize(id, quote, facts);
      var s1 := Step(s, e);
      && id < |s.campaigns| && id < |s1.campaigns| && s.campaigns[id].customer in s.wallets
      && s1.campaigns[id].status.WaitingForApproval?
      && var w := s.campaigns[id].customer;
      && s1.campaigns[id].customer == w && w in s1.wallets
      && s.wallets[w].free + s.wallets[w].credit >= quote.totalCost
      && s1.wallets[w] == Freeze(s.wallets[w], quote.totalCost)
      && Matching(s1.txs, w, id, ReserveBudget) != []
      && Matching(s1.txs, w, id, ReserveBudget)[0].amount == quote.totalCost
  {
    hide Inv, Matching, Freeze, Keeps, Adds;
    CampaignKept(s, id);
    AccountAfter(s, DecideFinalize(s, id, quote, facts).change, id);
  }

  /**
   Every release credits the whole budget, so the part that was taken from the free balance comes back
   as credit: the wallet is as it was before finalization iff nothing was taken from the free balance.
   */
  lemma {:induction false} ReleaseTurnsFreeMoneyIntoCredit(s: Ledger, id: nat, quote: Quote, facts: PriceFacts,
      m: Settlement)
    requires Inv(s) && DecideFinalize(s, id, quote, facts).outcome == Done
    requires ReleasesFreeze(m)
    ensures
      var s1 := Step(s, Finalize(id, quote, facts));
      id < |s.campaigns| && id < |s1.campaigns| &&
      var w := s.campaigns[id].customer;
      w in s.wallets && Settle(s1, id, m).outcome == Done &&
      var b, b2 := s.wallets[w], BalanceOf(Apply(s1, Settle(s1, id, m).change), w);
      var k := FromFree(b, quote.totalCost);
      b2 == b.(free := b.free - k, credit := b.credit + k) && (b2 == b <==> b.free == 0 || quote.totalCost == 0)
  {
    hide Inv, Matching, Freeze, Move, Step, SettlementGuard, DecideFinalize, Keeps, Adds;
    var e := Finalize(id, quote, facts);
    var s1 := Step(s, e);
    FinalizeEffect(s, id, quote, facts);
    StepKeepsInv(s, e);
    SettlementGuardsNeverFire(s1, id, m);
    FreezeThenCredit(s.wallets[s.campaigns[id].customer], quote.totalCost);
  }

  // ---------------------------------------------------------------- settlement of an executed campaign

  /** A quote whose cost was computed from the very facts stored with the freeze, all of them positive. */
  predicate WellPriced(quote: Quote, facts: PriceFacts) {
    && facts.Valid() && facts.base > 0 && facts.page > 0 && (facts.sms ==> facts.lineFactor > 0.0)
    && CheckedCost(PricePerMessage(facts), quote.audience) == Some(quote.totalCost)
  }

  /** Every finalization of the run is by a customer who pays, at positive prices. */
  predicate AllWellPriced(es: seq<Event>) {
    forall e :: e in es && e.Finalize? ==> WellPriced(e.quote, e.facts)
  }

  /** A finalized campaign's freeze is its audience at the price of its stored facts. */
  predicate PricedFreeze(audience: Option<nat>, freezes: seq<Tx>) {
    freezes == [] ||
    (audience.Some? && freezes[0].facts.Some? &&
      WellPriced(Quote(audience.value, freezes[0].amount), freezes[0].facts.value))
  }

  ghost predicate Priced(s: Ledger) {
    forall id: nat :: id < |s.campaigns| ==> PricedFreeze(s.campaigns[id].audience, AccountOf(s, id).freezes)
  }

  /** A change that freezes money does so at a well-priced quote. */
  predicate PricedChange(d: Change) {
    d.Pay? && d.kind.ReserveBudget? ==>
      d.campaign.audience.Some? && d.facts.Some? &&
        WellPriced(Quote(d.campaign.audience.value, d.amount), d.facts.value)
  }

  lemma {:induction false} OnlyFinalizationFreezes(s: Ledger, e: Event)
    ensures
      var d := Decide(s, e).change;
      d.Pay? && d.kind.ReserveBudget? ==>
        e.Finalize? && d.campaign.audience == Some(e.quote.audience) && d.amount == e.quote.totalCost &&
          d.facts == Some(e.facts)
  {
  }

  lemma {:induction false} CampaignAfter(s: Ledger, d: Change, id: nat)
    requires Fits(s, d) && id < |s.campaigns|
    ensures
      var s' := Apply(s, d);
      id < |s'.campaigns| &&
      (!(d.Pay? && d.id == id && d.kind.ReserveBudget?) ==> s'.campaigns[id].audience == s.campaigns[id].audience) &&
      (d.Pay? && d.id == id ==> s'.campaigns[id] == d.campaign)
  {
  }

  /** No change but a freeze adds a freeze or moves the audience that was paid for. */
  lemma {:induction false} ChangeKeepsPrice(s: Ledger, d: Change, id: nat)
    requires Inv(s) && Fits(s, d) && PricedChange(d) && Inv(Apply(s, d))
    requires id < |Apply(s, d).campaigns|
    requires id < |s.campaigns| ==> PricedFreeze(s.campaigns[id].audience, AccountOf(s, id).freezes)
    ensures PricedFreeze(Apply(s, d).campaigns[id].audience, AccountOf(Apply(s, d), id).freezes)
  {
    hide Inv, AccountOf, WellPriced, Fits, Apply;
    if id == |s.campaigns| {
      AccountOfNewCampaign(s, d);
    } else {
      AccountAfter(s, d, id);
      CampaignAfter(s, d, id);
      CampaignKept(Apply(s, d), id);
    }
  }

  lemma {:induction false} StepKeepsPrices(s: Ledger, e: Event)
    requires Inv(s) && Priced(s) && (e.Finalize? ==> WellPriced(e.quote, e.facts))
    ensures Inv(Step(s, e)) && Priced(Step(s, e))
  {
    hide Inv, AccountOf, WellPriced, Decide, Apply, PricedFreeze;
    StepKeepsInv(s, e);
    OnlyFinalizationFreezes(s, e);
    forall id: nat | id < |Step(s, e).campaigns|
      ensures PricedFreeze(Step(s, e).campaigns[id].audience, AccountOf(Step(s, e), id).freezes)
    {
      ChangeKeepsPrice(s, Decide(s, e).change, id);
    }
  }

  lemma {:induction false} RunKeepsPrices(s: Ledger, es: seq<Event>)
    requires Inv(s) && Priced(s) && AllWellPriced(es)
    ensures Inv(Run(s, es)) && Priced(Run(s, es))
    decreases |es|
  {
    hide Inv, Priced, WellPriced, Step;
    if es != [] {
      StepKeepsPrices(s, es[0]);
      RunKeepsPrices(Step(s, es[0]), es[1..]);
    }
  }

  /** The price per message that an executed campaign was charged. */
  function ChargedPrice(a: Account): Uint64
    requires a.freezes != [] && a.freezes[0].facts.Some? && a.freezes[0].facts.value.Valid()
  {
    PricePerMessage(a.freezes[0].facts.value)
  }

  /** The fee of a priced executed campaign, and the price its refund is rebuilt at. */
  lemma {:induction false} ExecutedCampaignIsPriced(s: Ledger, id: nat, latest: PriceTable)
    requires Inv(s) && Priced(s) && id < |s.campaigns| && s.campaigns[id].status.Executed?
    ensures
      var c := s.campaigns[id];
      var a := AccountOf(s, id);
      && |a.freezes| == 1 && |a.fees| == 1 && |a.refunds| <= 1
      && a.freezes[0].facts.Some? && a.freezes[0].facts.value.Valid() && c.audience.Some?
      && a.fees[0].amount == ChargedPrice(a) * c.audience.value <= MAX_UINT64
      && RefundPrice(s, c.customer, id, latest) == Some(ChargedPrice(a))
      && c.customer in s.wallets && a.fees[0].amount - Amount(a.refunds) <= s.wallets[c.customer].spent
  {
    hide Inv, Matching, PricePerMessage, RebuildPrice, CheckedCost;
    ShareIsCovered(s, id);
    var c := s.campaigns[id];
    var a := AccountOf(s, id);
    assert PricedFreeze(c.audience, a.freezes);
    RebuiltPriceIsThePriceCharged(a.freezes[0].facts.value, latest);
  }

  /** What a caller can see of an executed campaign before its refund job runs. */
  predicate RefundDue(c: Campaign, refunds: seq<Tx>, price: nat, now: int, delay: int) {
    Eligible(c, refunds, now, delay) && price > 0
  }

  lemma {:induction false} MissingFits(price: nat, audience: nat, sent: nat)
    requires sent < audience && price > 0 && price * audience <= MAX_UINT64
    ensures 0 < (audience - sent) * price <= price * audience
    ensures audience - sent <= MAX_UINT64 / price
    ensures price * audience - (audience - sent) * price == price * sent
  {
    MulMonotone(price, 1, audience - sent);
    MulMonotone(price, audience - sent, audience);
    OverflowGuardIsExact(audience - sent, price);
    assert price * audience - price * (audience - sent) == price * sent;
  }

  /** On a priced ledger a refund is paid exactly when it is due; no price or fee guard ever stops one. */
  lemma {:induction false} RefundGuardIsExact(s: Ledger, id: nat, now: int, delay: int, latest: PriceTable)
    requires Inv(s) && Priced(s) && id < |s.campaigns| && s.campaigns[id].status.Executed?
    ensures
      var c := s.campaigns[id];
      var a := AccountOf(s, id);
      a.freezes != [] && a.freezes[0].facts.Some? && a.freezes[0].facts.value.Valid() &&
      (ReconcileGuard(s, id, c.customer, now, delay, latest).Done? <==>
        RefundDue(c, a.refunds, ChargedPrice(a), now, delay))
  {
    hide Inv, Priced, Matching, RefundPrice, ChargedPrice;
    ExecutedCampaignIsPriced(s, id, latest);
    var c := s.campaigns[id];
    var a := AccountOf(s, id);
    if c.sent.Some? && c.sent.value < c.audience.value && ChargedPrice(a) > 0 {
      MissingFits(ChargedPrice(a), c.audience.value, c.sent.value);
    }
  }

  /**
   After any run of well-priced finalizations, a refund is paid to an executed campaign exactly when it
   is due, and then the campaign has cost its price times the messages sent, whatever the price tables
   say by then: fee less refund, and the wallet's spent bucket, move to that amount.
   */
  lemma {:induction false} UnderDeliveredCampaignCostsItsDeliveries(es: seq<Event>, id: nat, now: int, delay: int,
      latest: PriceTable)
    requires AllWellPriced(es)
    requires id < |Run(EMPTY, es).campaigns| && Run(EMPTY, es).campaigns[id].status.Executed?
    ensures
      var s := Run(EMPTY, es);
      var c, a := s.campaigns[id], AccountOf(s, id);
      var e := Reconcile(id, c.customer, now, delay, latest);
      && a.freezes != [] && a.freezes[0].facts.Some? && a.freezes[0].facts.value.Valid()
      && (Decide(s, e).outcome.Done? <==> RefundDue(c, a.refunds, ChargedPrice(a), now, delay))
      && (Decide(s, e).outcome.Done? ==>
            var s' := Step(s, e);
            && id < |s'.campaigns|
            && var a' := AccountOf(s', id);
            && Amount(a'.fees) - Amount(a'.refunds) == ChargedPrice(a) * c.sent.value
            && BalanceOf(s', c.customer).credit == BalanceOf(s, c.customer).credit
              + ChargedPrice(a) * (c.audience.value - c.sent.value)
            && BalanceOf(s', c.customer).spent == BalanceOf(s, c.customer).spent
              - ChargedPrice(a) * (c.audience.value - c.sent.value))
  {
    hide Inv, Priced, Run, Matching, ReconcileGuard, ChargedPrice, WellPriced;
    EmptyIsConsistent();
    assert Priced(EMPTY) by { NoCampaignsArePriced(); }
    RunKeepsPrices(EMPTY, es);
    var s := Run(EMPTY, es);
    RefundGuardIsExact(s, id, now, delay, latest);
    if ReconcileGuard(s, id, s.campaigns[id].customer, now, delay, latest).Done? {
      PaidRefund(s, id, now, delay, latest);
    }
  }

  lemma {:induction false} NoCampaignsArePriced()
    ensures Priced(EMPTY)
  {
  }

  lemma {:induction false} PaidRefund(s: Ledger, id: nat, now: int, delay: int, latest: PriceTable)
    requires Inv(s) && Priced(s) && id < |s.campaigns| && s.campaigns[id].status.Executed?
    requires ReconcileGuard(s, id, s.campaigns[id].customer, now, delay, latest).Done?
    ensures
      var c, a := s.campaigns[id], AccountOf(s, id);
      var s' := Step(s, Reconcile(id, c.customer, now, delay, latest));
      && a.freezes != [] && a.freezes[0].facts.Some? && a.freezes[0].facts.value.Valid()
      && c.audience.Some? && c.sent.Some? && c.sent.value < c.audience.value
      && id < |s'.campaigns|
      && var a' := AccountOf(s', id);
      && Amount(a'.fees) - Amount(a'.refunds) == ChargedPrice(a) * c.sent.value
      && BalanceOf(s', c.customer).credit == BalanceOf(s, c.customer).credit
        + ChargedPrice(a) * (c.audience.value - c.sent.value)
      && BalanceOf(s', c.customer).spent == BalanceOf(s, c.customer).spent
        - ChargedPrice(a) * (c.audience.value - c.sent.value)
  {
    hide Inv, Priced, Matching, RefundPrice, ReconcileGuard, ChargedPrice, Move, Keeps, Adds, Fits;
    RefundGuardIsExact(s, id, now, delay, latest);
    ExecutedCampaignIsPriced(s, id, latest);
    var c, a := s.campaigns[id], AccountOf(s, id);
    var d := DecideReconcile(s, id, c.customer, now, delay, latest).change;
    MissingFits(ChargedPrice(a), c.audience.value, c.sent.value);
    MoveDelta(s.wallets[c.customer], Spent, Credit, d.amount);
    CreditDelta(s.wallets[c.customer], Spent, d.amount);
    AccountAfter(s, d, id);
  }

  lemma {:induction false} CreditDelta(b: Balance, src: Bucket, amount: nat)
    requires src != Credit && b.Get(src) >= amount
    ensures Move(b, src, Credit, amount).credit == b.credit + amount
  {
  }

  /** What a paid refund does, whatever the freeze was priced at. */
  lemma {:induction false} RefundMoves(s: Ledger, id: nat, now: int, delay: int, latest: PriceTable)
    requires Inv(s) && id < |s.campaigns|
    requires ReconcileGuard(s, id, s.campaigns[id].customer, now, delay, latest).Done?
    ensures
      var c, a := s.campaigns[id], AccountOf(s, id);
      var s' := Step(s, Reconcile(id, c.customer, now, delay, latest));
      && c.audience.Some? && c.sent.Some? && c.sent.value < c.audience.value
      && RefundPrice(s, c.customer, id, latest).Some? && |a.fees| == 1 && id < |s'.campaigns|
      && var a' := AccountOf(s', id);
      Amount(a'.fees) - Amount(a'.refunds) ==
        a.fees[0].amount - (c.audience.value - c.sent.value) * RefundPrice(s, c.customer, id, latest).value
  {
    hide Inv, Matching, RefundPrice, ReconcileGuard, Move, Keeps, Adds, Fits;
    ShareIsCovered(s, id);
    var d := DecideReconcile(s, id, s.campaigns[id].customer, now, delay, latest).change;
    AccountAfter(s, d, id);
  }

  /**
   With no assumption about prices: once a refund is paid, the campaign has cost what it was charged per
   message times the messages sent iff the price rebuilt from the freeze is the price it was charged.
   */
  lemma {:induction false} SettlementIsExactIff(es: seq<Event>, id: nat, now: int, delay: int, latest: PriceTable,
      price: nat)
    requires id < |Run(EMPTY, es).campaigns|
    requires
      var s := Run(EMPTY, es);
      var c, a := s.campaigns[id], AccountOf(s, id);
      && Decide(s, Reconcile(id, c.customer, now, delay, latest)).outcome.Done?
      && c.audience.Some? && Amount(a.fees) == price * c.audience.value
    ensures
      var s := Run(EMPTY, es);
      var c := s.campaigns[id];
      var s' := Step(s, Reconcile(id, c.customer, now, delay, latest));
      && c.sent.Some? && id < |s'.campaigns|
      && var a' := AccountOf(s', id);
      Amount(a'.fees) - Amount(a'.refunds) == price * c.sent.value <==>
        RefundPrice(s, c.customer, id, latest) == Some(price)
  {
    hide Inv, Run, Matching, ReconcileGuard, RefundPrice;
    EmptyIsConsistent();
    RunKeepsInv(EMPTY, es);
    var s := Run(EMPTY, es);
    var c := s.campaigns[id];
    RefundMoves(s, id, now, delay, latest);
    SettlesIff(price, RefundPrice(s, c.customer, id, latest).value, c.audience.value, c.sent.value);
  }

  lemma {:induction false} SettlesIff(price: nat, rebuilt: nat, audience: nat, sent: nat)
    requires sent < audience
    ensures price * audience - (audience - sent) * rebuilt == price * sent <==> rebuilt == price
  {
    var missing := audience - sent;
    assert price * audience - price * sent == price * missing;
    if rebuilt < price {
      MulMonotone(missing, rebuilt + 1, price);
      assert missing * (rebuilt + 1) == missing * rebuilt + missing;
    } else if price < rebuilt {
      MulMonotone(missing, price + 1, rebuilt);
      assert missing * (price + 1) == missing * price + missing;
    }
  }
}
