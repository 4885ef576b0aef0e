/**
 What every run of the campaign and wallet steps keeps: the frozen and spent buckets of a wallet are
 exactly what its campaigns owe, the six buckets only change in total when money is deposited, each
 finalized campaign has one freeze and each charged one has one fee, and every wallet's balance is
 explained by its chain of transactions. The release guards that test for a missing or repeated
 freeze or fee, or for too little frozen or spent money, therefore never fire.
 */
module LedgerInvariant {
  import opened CampaignLedger
  import opened CampaignPricing
  import opened Wrappers

  function Sum(xs: seq<int>): int {
    if xs == [] then 0 else xs[0] + Sum(xs[1..])
  }

  function Amount(found: seq<Tx>): nat {
    if found == [] then 0 else found[0].amount
  }

  /** A campaign's books: its owner and status, and the transactions found for it. */
  datatype Account = Account(customer: nat, status: Status, freezes: seq<Tx>, fees: seq<Tx>, refunds: seq<Tx>)
  {
    /** What the campaign keeps frozen. */
    function Frozen(): int {
      if status.WaitingForApproval? then Amount(freezes) else 0
    }

    /** What the campaign has spent: the fee less the partial refund. */
    function Spent(): int {
      if status.Charged() then Amount(fees) - Amount(refunds) else 0
    }

    /** One freeze per finalized campaign, one fee of the same amount per charged one, at most one refund. */
    predicate Kept() {
      && |freezes| == (if status.Editable() then 0 else 1)
      && |fees| <= |freezes|
      && (status.Charged() ==> |fees| == 1)
      && (status.WaitingForApproval? || status.Rejected? || status.Expired? ==> fees == [])
      && (fees != [] ==> fees[0].amount == freezes[0].amount)
      && |refunds| <= 1
      && (refunds != [] ==> status.Executed? && refunds[0].amount <= fees[0].amount)
    }
  }

  function AccountOf(s: Ledger, id: nat): (a: Account)
    requires id < |s.campaigns|
    ensures a.customer == s.campaigns[id].customer && a.status == s.campaigns[id].status
  {
    var c := s.campaigns[id];
    Account(c.customer, c.status,
            Matching(s.txs, c.customer, id, ReserveBudget),
            Matching(s.txs, c.customer, id, ConsumeBudget),
            Matching(s.txs, c.customer, id, RefundUndelivered))
  }

  function FrozenShare(s: Ledger, w: nat, id: nat): int
    requires id < |s.campaigns|
  {
    if AccountOf(s, id).customer == w then AccountOf(s, id).Frozen() else 0
  }

  function SpentShare(s: Ledger, w: nat, id: nat): int
    requires id < |s.campaigns|
  {
    if AccountOf(s, id).customer == w then AccountOf(s, id).Spent() else 0
  }

  function FrozenShares(s: Ledger, w: nat): (xs: seq<int>)
    ensures |xs| == |s.campaigns|
  {
    seq(|s.campaigns|, id requires 0 <= id < |s.campaigns| => FrozenShare(s, w, id))
  }

  function SpentShares(s: Ledger, w: nat): (xs: seq<int>)
    ensures |xs| == |s.campaigns|
  {
    seq(|s.campaigns|, id requires 0 <= id < |s.campaigns| => SpentShare(s, w, id))
  }

  predicate CampaignConsistent(s: Ledger, id: nat)
    requires id < |s.campaigns|
  {
    AccountOf(s, id).customer in s.wallets && AccountOf(s, id).Kept()
  }

  /** Reading a wallet's transactions backwards, each one's `after` is the next one's `before`. */
  predicate Audit(txs: seq<Tx>, w: nat, current: Balance)
    decreases |txs|
  {
    if txs == [] then true
    else
      var last := txs[|txs| - 1];
      if last.customer == w then last.after == current && Audit(txs[..|txs| - 1], w, last.before)
      else Audit(txs[..|txs| - 1], w, current)
  }

  predicate WalletConsistent(s: Ledger, w: nat)
    requires w in s.wallets
  {
    var b := s.wallets[w];
    && b.frozen == Sum(FrozenShares(s, w))
    && b.spent == Sum(SpentShares(s, w))
    && b.Total() <= MAX_UINT64
    && Audit(s.txs, w, b)
  }

  ghost predicate Inv(s: Ledger) {
    && (forall id: nat :: id < |s.campaigns| ==> CampaignConsistent(s, id))
    && (forall w :: w in s.wallets ==> WalletConsistent(s, w))
    && (forall t :: t in s.txs ==> t.customer in s.wallets && (t.campaign.Some? ==> t.campaign.value < |s.campaigns|))
  }

  // ---------------------------------------------------------------- sums and lookups

  lemma {:induction false} SumUpdated(xs: seq<int>, i: nat, v: int)
    requires i < |xs|
    ensures Sum(xs[i := v]) == Sum(xs) - xs[i] + v
  {
    if i == 0 {
      assert xs[i := v][1..] == xs[1..];
    } else {
      assert xs[i := v][1..] == xs[1..][i - 1 := v];
      SumUpdated(xs[1..], i - 1, v);
    }
  }

  lemma {:induction false} SumAppended(xs: seq<int>, v: int)
    ensures Sum(xs + [v]) == Sum(xs) + v
  {
    if xs != [] {
      assert (xs + [v])[1..] == xs[1..] + [v];
      SumAppended(xs[1..], v);
    } else {
      assert (xs + [v])[1..] == [];
    }
  }

  lemma {:induction false} SumAtLeast(xs: seq<int>, i: nat)
    requires i < |xs|
    requires forall j :: 0 <= j < |xs| ==> xs[j] >= 0
    ensures 0 <= xs[i] <= Sum(xs)
  {
    if i == 0 {
      SumNonNegative(xs[1..]);
    } else {
      SumAtLeast(xs[1..], i - 1);
    }
  }

  lemma {:induction false} SumNonNegative(xs: seq<int>)
    requires forall j :: 0 <= j < |xs| ==> xs[j] >= 0
    ensures Sum(xs) >= 0
  {
    if xs != [] {
      SumNonNegative(xs[1..]);
    }
  }

  lemma {:induction false} SumOfZeros(xs: seq<int>)
    requires forall j :: 0 <= j < |xs| ==> xs[j] == 0
    ensures Sum(xs) == 0
  {
    if xs != [] {
      SumOfZeros(xs[1..]);
    }
  }

  lemma {:induction false} MatchingAppended(txs: seq<Tx>, t: Tx, customer: nat, id: nat, kind: TxKind)
    ensures
      Matching(txs + [t], customer, id, kind) ==
      if Matches(t, customer, id, kind) then Matching(txs, customer, id, kind) + [t]
        else Matching(txs, customer, id, kind)
  {
  }

  lemma {:induction false} MatchingSkips(txs: seq<Tx>, t: Tx, customer: nat, id: nat, kind: TxKind)
    requires !Matches(t, customer, id, kind)
    ensures Matching(txs + [t], customer, id, kind) == Matching(txs, customer, id, kind)
  {
  }

  lemma {:induction false} AuditAppended(txs: seq<Tx>, t: Tx, w: nat, current: Balance)
    requires Audit(txs, w, if t.customer == w then t.before else current)
    requires t.customer == w ==> t.after == current
    ensures Audit(txs + [t], w, current)
  {
  }

  lemma {:induction false} NoTransactionsForUnknownCampaign(txs: seq<Tx>, customer: nat, id: nat, kind: TxKind)
    requires forall t :: t in txs ==> t.campaign != Some(id)
    ensures Matching(txs, customer, id, kind) == []
  {
    if txs != [] {
      NoTransactionsForUnknownCampaign(txs[..|txs| - 1], customer, id, kind);
    }
  }

  lemma {:induction false} AuditOfStranger(txs: seq<Tx>, w: nat, b: Balance)
    requires forall t :: t in txs ==> t.customer != w
    ensures Audit(txs, w, b)
  {
    if txs != [] {
      AuditOfStranger(txs[..|txs| - 1], w, b);
    }
  }

  // ---------------------------------------------------------------- one campaign changes at a time

  predicate Touches(d: Change, id: nat) {
    (d.Edit? || d.Pay?) && d.id == id
  }

  /** What a campaign's lookup for one kind of transaction finds after a change. */
  function Found(s: Ledger, d: Change, id: nat, kind: TxKind, before: seq<Tx>): (found: seq<Tx>)
    requires Fits(s, d)
  {
    if d.Pay? && d.id == id && d.kind == kind then before + [Record(s, d)] else before
  }

  /** A campaign's books after a change: only the touched campaign's status and lookups move. */
  function Advance(s: Ledger, d: Change, id: nat, a: Account): (r: Account)
    requires Fits(s, d)
  {
    Account(a.customer, if Touches(d, id) then d.campaign.status else a.status,
            Found(s, d, id, ReserveBudget, a.freezes),
            Found(s, d, id, ConsumeBudget, a.fees),
            Found(s, d, id, RefundUndelivered, a.refunds))
  }

  lemma {:induction false} LookupAfter(s: Ledger, d: Change, id: nat, kind: TxKind)
    requires Fits(s, d) && id < |s.campaigns|
    ensures
      var customer := s.campaigns[id].customer;
      Matching(Apply(s, d).txs, customer, id, kind) == Found(s, d, id, kind, Matching(s.txs, customer, id, kind))
  {
    hide Matching;
    if d.Pay? {
      MatchingAppended(s.txs, Record(s, d), s.campaigns[id].customer, id, kind);
    } else if d.Receive? {
      hide Fits, BalanceOf;
      MatchingSkips(s.txs, Record(s, d), s.campaigns[id].customer, id, kind);
    }
  }

  lemma {:induction false} AccountAfter(s: Ledger, d: Change, id: nat)
    requires Fits(s, d) && id < |s.campaigns|
    ensures id < |Apply(s, d).campaigns| && AccountOf(Apply(s, d), id) == Advance(s, d, id, AccountOf(s, id))
  {
    LookupAfter(s, d, id, ReserveBudget);
    LookupAfter(s, d, id, ConsumeBudget);
    LookupAfter(s, d, id, RefundUndelivered);
    hide Matching, Found;
  }

  lemma {:induction false} AccountOfNewCampaign(s: Ledger, d: Change)
    requires Inv(s) && Fits(s, d) && d.Open?
    ensures AccountOf(Apply(s, d), |s.campaigns|) == Account(d.campaign.customer, d.campaign.status, [], [], [])
  {
    var id := |s.campaigns|;
    assert forall t :: t in s.txs ==> t.campaign != Some(id);
    hide Inv, Matching;
    NoTransactionsForUnknownCampaign(s.txs, d.campaign.customer, id, ReserveBudget);
    NoTransactionsForUnknownCampaign(s.txs, d.campaign.customer, id, ConsumeBudget);
    NoTransactionsForUnknownCampaign(s.txs, d.campaign.customer, id, RefundUndelivered);
  }

  /** The sums over campaigns move by exactly the change in the campaign that was touched. */
  lemma {:induction false} SharesAfterTouch(s: Ledger, d: Change, w: nat)
    requires Fits(s, d) && (d.Edit? || d.Pay?)
    ensures
      var s' := Apply(s, d);
      && d.id < |s'.campaigns|
      && Sum(FrozenShares(s', w)) == Sum(FrozenShares(s, w)) - FrozenShare(s, w, d.id) + FrozenShare(s', w, d.id)
      && Sum(SpentShares(s', w)) == Sum(SpentShares(s, w)) - SpentShare(s, w, d.id) + SpentShare(s', w, d.id)
  {
    hide AccountOf, Matching, Sum;
    var s' := Apply(s, d);
    forall other: nat | other < |s.campaigns| && other != d.id
      ensures AccountOf(s', other) == AccountOf(s, other)
    {
      AccountAfter(s, d, other);
    }
    hide Apply;
    assert FrozenShares(s', w) == FrozenShares(s, w)[d.id := FrozenShare(s', w, d.id)];
    assert SpentShares(s', w) == SpentShares(s, w)[d.id := SpentShare(s', w, d.id)];
    SumUpdated(FrozenShares(s, w), d.id, FrozenShare(s', w, d.id));
    SumUpdated(SpentShares(s, w), d.id, SpentShare(s', w, d.id));
  }

  lemma {:induction false} SharesAfterOpen(s: Ledger, d: Change, w: nat)
    requires Inv(s) && Fits(s, d) && d.Open?
    ensures Sum(FrozenShares(Apply(s, d), w)) == Sum(FrozenShares(s, w))
    ensures Sum(SpentShares(Apply(s, d), w)) == Sum(SpentShares(s, w))
  {
    hide Inv, AccountOf, Matching, Sum;
    var s' := Apply(s, d);
    AccountOfNewCampaign(s, d);
    forall other: nat | other < |s.campaigns|
      ensures AccountOf(s', other) == AccountOf(s, other)
    {
      AccountAfter(s, d, other);
    }
    assert |s'.campaigns| == |s.campaigns| + 1;
    hide Apply;
    assert FrozenShares(s', w) == FrozenShares(s, w) + [0];
    assert SpentShares(s', w) == SpentShares(s, w) + [0];
    SumAppended(FrozenShares(s, w), 0);
    SumAppended(SpentShares(s, w), 0);
  }

  lemma {:induction false} SharesOfSameAccounts(s: Ledger, s': Ledger, w: nat)
    requires |s'.campaigns| == |s.campaigns|
    requires forall id: nat | id < |s.campaigns| :: AccountOf(s', id) == AccountOf(s, id)
    ensures FrozenShares(s', w) == FrozenShares(s, w) && SpentShares(s', w) == SpentShares(s, w)
  {
  }

  lemma {:induction false} SharesUntouched(s: Ledger, d: Change, w: nat)
    requires Fits(s, d) && (d.Receive? || d.Nothing?)
    ensures FrozenShares(Apply(s, d), w) == FrozenShares(s, w) && SpentShares(Apply(s, d), w) == SpentShares(s, w)
  {
    hide AccountOf, Matching, Apply, Fits, FrozenShares, SpentShares, FrozenShare, SpentShare;
    var s' := Apply(s, d);
    forall id: nat | id < |s.campaigns|
      ensures AccountOf(s', id) == AccountOf(s, id)
    {
      AccountAfter(s, d, id);
    }
    SharesOfSameAccounts(s, s', w);
  }

  /** Nobody has frozen or spent from a wallet that does not exist yet. */
  lemma {:induction false} NewWalletOwesNothing(s: Ledger, w: nat)
    requires Inv(s) && w !in s.wallets
    ensures Sum(FrozenShares(s, w)) == 0 && Sum(SpentShares(s, w)) == 0
    ensures forall b: Balance :: Audit(s.txs, w, b)
  {
    hide AccountOf, Matching, Audit;
    forall id: nat | id < |s.campaigns|
      ensures AccountOf(s, id).customer != w
    {
      assert CampaignConsistent(s, id);
    }
    SumOfZeros(FrozenShares(s, w));
    SumOfZeros(SpentShares(s, w));
    forall b: Balance
      ensures Audit(s.txs, w, b)
    {
      AuditOfStranger(s.txs, w, b);
    }
  }

  /** The campaign a change touches keeps its books, and the wallet moves by what that campaign owes. */
  predicate Balanced(s: Ledger, d: Change)
    requires Fits(s, d)
  {
    d.Edit? || d.Pay? ==>
      var a := AccountOf(s, d.id);
      var r := Advance(s, d, d.id, a);
      && r.customer in s.wallets && r.Kept()
      && r.Frozen() - a.Frozen() == (if d.Pay? then d.after.frozen - s.wallets[a.customer].frozen else 0)
      && r.Spent() - a.Spent() == (if d.Pay? then d.after.spent - s.wallets[a.customer].spent else 0)
  }

  lemma {:induction false} CampaignKept(s: Ledger, id: nat)
    requires Inv(s) && id < |s.campaigns|
    ensures CampaignConsistent(s, id)
  {
  }

  lemma {:induction false} CampaignsAfterChange(s: Ledger, d: Change, id: nat)
    requires Inv(s) && Fits(s, d) && Balanced(s, d)
    requires id < |Apply(s, d).campaigns|
    ensures CampaignConsistent(Apply(s, d), id)
  {
    hide Inv, Matching, AccountOf, Keeps, Adds, Account.Frozen, Account.Spent;
    if id == |s.campaigns| {
      AccountOfNewCampaign(s, d);
    } else {
      CampaignKept(s, id);
      AccountAfter(s, d, id);
    }
  }

  lemma {:induction false} WalletAfterEdit(s: Ledger, d: Change, w: nat)
    requires Fits(s, d) && Balanced(s, d) && d.Edit?
    requires w in s.wallets && WalletConsistent(s, w)
    ensures w in Apply(s, d).wallets && WalletConsistent(Apply(s, d), w)
  {
    hide AccountOf, Matching, Sum, Audit, FrozenShares, SpentShares;
    SharesAfterTouch(s, d, w);
    AccountAfter(s, d, d.id);
  }

  lemma {:induction false} PayFacts(s: Ledger, d: Change, w: nat)
    requires Fits(s, d) && d.Pay? && w in Apply(s, d).wallets
    ensures
      var s', t := Apply(s, d), Record(s, d);
      && w in s.wallets && d.id < |s.campaigns| && t.customer == s.campaigns[d.id].customer
      && s'.txs == s.txs + [t]
      && (t.customer == w ==>
        t.before == s.wallets[w] && t.after == s'.wallets[w] == d.after && Keeps(s.wallets[w], d.after))
      && (t.customer != w ==> s'.wallets[w] == s.wallets[w])
  {
  }

  lemma {:induction false} WalletAfterPay(s: Ledger, d: Change, w: nat)
    requires Fits(s, d) && Balanced(s, d) && d.Pay?
    requires w in s.wallets && WalletConsistent(s, w) && w in Apply(s, d).wallets
    ensures WalletConsistent(Apply(s, d), w)
  {
    hide AccountOf, Matching, Sum, Audit, FrozenShares, SpentShares, Apply, Fits, Record;
    PayFacts(s, d, w);
    SharesAfterTouch(s, d, w);
    AccountAfter(s, d, d.id);
    AuditAppended(s.txs, Record(s, d), w, Apply(s, d).wallets[w]);
  }

  lemma {:induction false} ReceiveFacts(s: Ledger, d: Change, w: nat)
    requires Fits(s, d) && d.Receive? && w in Apply(s, d).wallets
    ensures
      var s', t, b := Apply(s, d), Record(s, d), BalanceOf(s, w);
      var b' := s'.wallets[w];
      && s'.txs == s.txs + [t]
      && t.customer == d.customer && d.customer in s'.wallets
      && (t.customer == w ==> t.before == b && t.after == b' && Adds(b, d.amount, b'))
      && (t.customer != w ==> b' == b && w in s.wallets)
  {
    hide Adds;
  }

  /** The snapshot a wallet's next transaction starts from is explained by the transactions so far. */
  predicate Explained(s: Ledger, w: nat, b: Balance) {
    b.frozen == Sum(FrozenShares(s, w)) && b.spent == Sum(SpentShares(s, w)) && Audit(s.txs, w, b)
  }

  lemma {:induction false} WalletExplained(s: Ledger, w: nat)
    requires Inv(s)
    ensures Explained(s, w, BalanceOf(s, w))
    ensures w in s.wallets ==> WalletConsistent(s, w)
  {
    hide AccountOf, Matching, FrozenShares, SpentShares, Audit;
    if w in s.wallets {
      assert WalletConsistent(s, w);
    } else {
      NewWalletOwesNothing(s, w);
    }
  }

  lemma {:induction false} WalletAfterReceive(s: Ledger, d: Change, w: nat)
    requires Fits(s, d) && d.Receive?
    requires Explained(s, w, BalanceOf(s, w)) && (w in s.wallets ==> WalletConsistent(s, w))
    requires w in Apply(s, d).wallets
    ensures WalletConsistent(Apply(s, d), w)
  {
    hide Sum, Audit, FrozenShares, SpentShares, Fits, Apply, Record, Matching, AccountOf;
    ReceiveFacts(s, d, w);
    SharesUntouched(s, d, w);
    AuditAppended(s.txs, Record(s, d), w, Apply(s, d).wallets[w]);
  }

  lemma {:induction false} WalletAfterOpen(s: Ledger, d: Change, w: nat)
    requires Inv(s) && Fits(s, d) && d.Open?
    requires w in s.wallets && WalletConsistent(s, w)
    ensures w in Apply(s, d).wallets && WalletConsistent(Apply(s, d), w)
  {
    hide Inv, Sum, Audit, FrozenShares, SpentShares, Matching, AccountOf;
    SharesAfterOpen(s, d, w);
  }

  lemma {:induction false} WalletsAfterChange(s: Ledger, d: Change, w: nat)
    requires Inv(s) && Fits(s, d) && Balanced(s, d)
    requires w in Apply(s, d).wallets
    ensures WalletConsistent(Apply(s, d), w)
  {
    hide Inv, Balanced, WalletConsistent, Fits, Explained;
    WalletExplained(s, w);
    match d {
      case Nothing =>
      case Edit(_, _) => WalletAfterEdit(s, d, w);
      case Pay(_, _, _, _, _, _) =>
        PayFacts(s, d, w);
        WalletAfterPay(s, d, w);
      case Open(_) => WalletAfterOpen(s, d, w);
      case Receive(_, _, _) => WalletAfterReceive(s, d, w);
    }
  }

  lemma {:induction false} TransactionKnown(s: Ledger, t: Tx)
    requires Inv(s) && t in s.txs
    ensures t.customer in s.wallets && (t.campaign.Some? ==> t.campaign.value < |s.campaigns|)
  {
  }

  lemma {:induction false} TransactionsAfterChange(s: Ledger, d: Change, t: Tx)
    requires Inv(s) && Fits(s, d) && t in Apply(s, d).txs
    ensures t.customer in Apply(s, d).wallets && (t.campaign.Some? ==> t.campaign.value < |Apply(s, d).campaigns|)
  {
    hide Inv, Adds, Keeps, BalanceOf;
    if t in s.txs {
      TransactionKnown(s, t);
    }
  }

  lemma {:induction false} InvHolds(s: Ledger)
    requires forall id: nat :: id < |s.campaigns| ==> CampaignConsistent(s, id)
    requires forall w :: w in s.wallets ==> WalletConsistent(s, w)
    requires forall t ::
      t in s.txs ==> t.customer in s.wallets && (t.campaign.Some? ==> t.campaign.value < |s.campaigns|)
    ensures Inv(s)
  {
  }

  /** Any change that is balanced for its own campaign keeps the whole ledger consistent. */
  lemma {:induction false} ChangeKeepsInv(s: Ledger, d: Change)
    requires Inv(s) && Fits(s, d) && Balanced(s, d)
    ensures Inv(Apply(s, d))
  {
    var s' := Apply(s, d);
    hide Inv, Balanced, CampaignConsistent, WalletConsistent, Apply, Fits;
    forall id: nat | id < |s'.campaigns|
      ensures CampaignConsistent(s', id)
    {
      CampaignsAfterChange(s, d, id);
    }
    forall w | w in s'.wallets
      ensures WalletConsistent(s', w)
    {
      WalletsAfterChange(s, d, w);
    }
    forall t | t in s'.txs
      ensures t.customer in s'.wallets && (t.campaign.Some? ==> t.campaign.value < |s'.campaigns|)
    {
      TransactionsAfterChange(s, d, t);
    }
    InvHolds(s');
  }

  /** A campaign owes no more than its wallet holds for all of them. */
  lemma {:induction false} ShareIsCovered(s: Ledger, id: nat)
    requires Inv(s) && id < |s.campaigns|
    ensures
      var a := AccountOf(s, id);
      && a.customer in s.wallets && a.Kept()
      && 0 <= a.Frozen() <= s.wallets[a.customer].frozen
      && 0 <= a.Spent() <= s.wallets[a.customer].spent
  {
    hide AccountOf, Matching;
    var w := AccountOf(s, id).customer;
    assert CampaignConsistent(s, id);
    forall j: nat | j < |s.campaigns|
      ensures FrozenShare(s, w, j) >= 0 && SpentShare(s, w, j) >= 0
    {
      assert CampaignConsistent(s, j);
    }
    assert WalletConsistent(s, w);
    assert FrozenShares(s, w)[id] == FrozenShare(s, w, id);
    assert SpentShares(s, w)[id] == SpentShare(s, w, id);
    SumAtLeast(FrozenShares(s, w), id);
    SumAtLeast(SpentShares(s, w), id);
  }

  // ---------------------------------------------------------------- the steps

  /** The outcomes of the guards that look for exactly one freeze or fee, for the wallet and for its money. */
  predicate Unexpected(o: Outcome) {
    o.FreezeNotFound? || o.MultipleFreezes? || o.FeeNotFound? || o.MultipleFees? || o.InsufficientFunds? ||
      o.WalletNotFound?
  }

  /** The settlements applied to a campaign that is waiting, and those applied to an approved one. */
  predicate Applicable(status: Status, m: Settlement) {
    || (status.WaitingForApproval? && m in {APPROVAL, REJECTION, EXPIRY, CANCEL_WAITING, ADMIN_CANCEL_MISSED})
    || (status.Approved? && m in {CANCEL_APPROVED, ADMIN_CANCEL_APPROVED})
  }

  /** The guards on a settlement's one freeze or fee, and on the bucket it releases, never fire. */
  lemma {:induction false} SettlementGuardsNeverFire(s: Ledger, id: nat, m: Settlement)
    requires Inv(s) && id < |s.campaigns| && Applicable(s.campaigns[id].status, m)
    ensures SettlementGuard(s, id, m) == Done
  {
    ShareIsCovered(s, id);
    hide Inv, Matching;
  }

  function Flow(b: Bucket, src: Bucket, dst: Bucket, amount: nat): int {
    if b == src then 0 - amount else if b == dst then amount else 0
  }

  lemma {:induction false} MoveDelta(b: Balance, src: Bucket, dst: Bucket, amount: nat)
    requires src != dst && b.Get(src) >= amount
    ensures
      var r := Move(b, src, dst, amount);
      r.frozen == b.frozen + Flow(Frozen, src, dst, amount) && r.spent == b.spent + Flow(Spent, src, dst, amount)
  {
  }

  lemma {:induction false} SettleIsBalanced(s: Ledger, id: nat, m: Settlement)
    requires Inv(s) && id < |s.campaigns| && Applicable(s.campaigns[id].status, m)
    ensures Settle(s, id, m).outcome == Done && Balanced(s, Settle(s, id, m).change)
  {
    hide Inv, Matching, SettlementGuard, Move;
    SettlementGuardsNeverFire(s, id, m);
    ShareIsCovered(s, id);
    var a := AccountOf(s, id);
    var amount := Matching(s.txs, a.customer, id, m.lookup)[0].amount;
    MoveDelta(s.wallets[a.customer], m.src, m.dst, amount);
  }

  lemma {:induction false} WaitingStepsAreBalanced(s: Ledger, id: nat, customer: nat, time: int)
    requires Inv(s)
    ensures var d := DecideApprove(s, id, time); Balanced(s, d.change) && !Unexpected(d.outcome)
    ensures var d := DecideReject(s, id); Balanced(s, d.change) && !Unexpected(d.outcome)
    ensures var d := DecideExpire(s, id, customer, time); Balanced(s, d.change) && !Unexpected(d.outcome)
  {
    hide Inv, Settle, AccountOf, Advance;
    if id < |s.campaigns| && s.campaigns[id].status.WaitingForApproval? {
      SettleIsBalanced(s, id, APPROVAL);
      SettleIsBalanced(s, id, REJECTION);
      SettleIsBalanced(s, id, EXPIRY);
    }
  }

  lemma {:induction false} CancelIsBalanced(s: Ledger, id: nat, customer: nat, now: int)
    requires Inv(s)
    ensures var d := DecideCancel(s, id, customer, now); Balanced(s, d.change) && !Unexpected(d.outcome)
  {
    hide Inv, Settle, Matching, AccountOf, Advance, Keeps, Adds;
    if id < |s.campaigns| {
      CampaignKept(s, id);
      if s.campaigns[id].status.WaitingForApproval? {
        SettleIsBalanced(s, id, CANCEL_WAITING);
      } else if s.campaigns[id].status.Approved? {
        SettleIsBalanced(s, id, CANCEL_APPROVED);
      }
    }
  }

  lemma {:induction false} AdminCancelIsBalanced(s: Ledger, id: nat, now: int)
    requires Inv(s)
    ensures var d := DecideAdminCancel(s, id, now); Balanced(s, d.change) && !Unexpected(d.outcome)
  {
    hide Inv, Settle, AccountOf, Advance, Keeps, Adds;
    if id < |s.campaigns| {
      if s.campaigns[id].status.WaitingForApproval? {
        SettleIsBalanced(s, id, ADMIN_CANCEL_MISSED);
      } else if s.campaigns[id].status.Approved? {
        SettleIsBalanced(s, id, ADMIN_CANCEL_APPROVED);
      }
    }
  }

  lemma {:induction false} FinalizeIsBalanced(s: Ledger, id: nat, quote: Quote, facts: PriceFacts)
    requires Inv(s)
    ensures
      var d := DecideFinalize(s, id, quote, facts);
      Balanced(s, d.change) && (Unexpected(d.outcome) ==> d.outcome.InsufficientFunds?)
  {
    hide Inv, Matching, AccountOf, Freeze, Keeps, Adds;
    if id < |s.campaigns| {
      CampaignKept(s, id);
    }
  }

  lemma {:induction false} ReconcileIsBalanced(s: Ledger, id: nat, customer: nat, now: int, delay: int,
      latest: PriceTable)
    requires Inv(s)
    ensures
      var d := DecideReconcile(s, id, customer, now, delay, latest);
      Balanced(s, d.change) && !Unexpected(d.outcome)
  {
    hide Inv, Matching, RefundPrice, Move, Keeps, Adds;
    if id < |s.campaigns| {
      CampaignKept(s, id);
      var d := DecideReconcile(s, id, customer, now, delay, latest).change;
      if d.Pay? {
        MoveDelta(s.wallets[customer], Spent, Credit, d.amount);
      }
    }
  }

  /** The status is kept, or stays among drafts, or among charged campaigns that are not executed yet. */
  predicate SameStage(from: Status, to: Status) {
    from == to || (from.Editable() && to.Editable()) || (from.Charged() && to.Charged() && !from.Executed?)
  }

  lemma {:induction false} EditIsBalanced(s: Ledger, id: nat, c: Campaign)
    requires Inv(s) && Fits(s, Edit(id, c))
    requires SameStage(s.campaigns[id].status, c.status)
    ensures Balanced(s, Edit(id, c))
  {
    assert CampaignConsistent(s, id);
    hide Inv, Matching, AccountOf;
  }

  predicate Edits(e: Event) {
    e.SaveDraft? || e.MoveToRunning? || e.MoveToExecuted? || e.Requeue? || e.Interrupt? || e.Reschedule? ||
      e.ReportDelivery?
  }

  /** Steps without money only move a campaign within its stage. */
  lemma {:induction false} EditsStayInStage(s: Ledger, e: Event)
    requires Edits(e)
    ensures
      var d := Decide(s, e);
      !Unexpected(d.outcome) &&
      (d.change.Nothing? || (d.change.Edit? && SameStage(s.campaigns[d.change.id].status, d.change.campaign.status)))
  {
  }

  lemma {:induction false} UntouchedIsBalanced(s: Ledger, d: Change)
    requires Fits(s, d) && !d.Edit? && !d.Pay?
    ensures Balanced(s, d)
  {
  }

  lemma {:induction false} EditsAreBalanced(s: Ledger, e: Event)
    requires Inv(s) && Edits(e)
    ensures Balanced(s, Decide(s, e).change) && !Unexpected(Decide(s, e).outcome)
  {
    hide Inv, Balanced, Decide;
    EditsStayInStage(s, e);
    var d := Decide(s, e).change;
    if d.Edit? {
      EditIsBalanced(s, d.id, d.campaign);
    } else {
      UntouchedIsBalanced(s, d);
    }
  }

  lemma {:induction false} ArrivalIsBalanced(s: Ledger, customer: nat, free: nat, locked: nat, credit: nat, agency: nat)
    ensures Balanced(s, DecideCreate(s, customer).change)
    ensures var d := DecideDeposit(s, customer, free, locked, credit, agency);
      Balanced(s, d.change) && !Unexpected(d.outcome)
  {
    hide AccountOf, Matching, BalanceOf, Adds, Keeps, Advance;
  }

  lemma {:induction false} DecisionIsBalanced(s: Ledger, e: Event)
    requires Inv(s)
    ensures Balanced(s, Decide(s, e).change)
    ensures
      var o := Decide(s, e).outcome;
      Unexpected(o) ==> e.Create? || (e.Finalize? && o.InsufficientFunds?)
  {
    hide Inv, Balanced, DecideCreate, DecideDeposit, DecideFinalize, DecideApprove, DecideReject, DecideExpire,
      DecideCancel, DecideAdminCancel, DecideReconcile;
    match e
    case Create(customer) => ArrivalIsBalanced(s, customer, 0, 0, 0, 0);
    case Deposit(customer, free, locked, credit, agency) =>
      ArrivalIsBalanced(s, customer, free, locked, credit, agency);
    case Finalize(id, quote, facts) => FinalizeIsBalanced(s, id, quote, facts);
    case Approve(id, now) => WaitingStepsAreBalanced(s, id, 0, now);
    case Reject(id) => WaitingStepsAreBalanced(s, id, 0, 0);
    case Expire(id, customer, cutoff) => WaitingStepsAreBalanced(s, id, customer, cutoff);
    case Cancel(id, customer, now) => CancelIsBalanced(s, id, customer, now);
    case AdminCancel(id, now) => AdminCancelIsBalanced(s, id, now);
    case Reconcile(id, customer, now, delay, latest) => ReconcileIsBalanced(s, id, customer, now, delay, latest);
    case _ => EditsAreBalanced(s, e);
  }

  /** One step keeps the ledger consistent, and no guard for an impossible state fires. */
  lemma {:induction false} StepKeepsInv(s: Ledger, e: Event)
    requires Inv(s)
    ensures Inv(Step(s, e))
    ensures
      var o := Decide(s, e).outcome;
      Unexpected(o) ==> e.Create? || (e.Finalize? && o.InsufficientFunds?)
  {
    hide Inv, Balanced, Decide, Apply;
    DecisionIsBalanced(s, e);
    ChangeKeepsInv(s, Decide(s, e).change);
  }

  lemma {:induction false} RunKeepsInv(s: Ledger, es: seq<Event>)
    requires Inv(s)
    ensures Inv(Run(s, es))
    decreases |es|
  {
    hide Inv, Step;
    if es != [] {
      StepKeepsInv(s, es[0]);
      RunKeepsInv(Step(s, es[0]), es[1..]);
    }
  }
}
