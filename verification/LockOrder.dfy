/**
 The named locks of money, campaign and evaluation transactions, and when they can deadlock.

 Transactions take row locks one at a time and keep them to the end. Nearly all of them ask for their
 locks in one order, campaign before bundle before wallet, but those that end a campaign release its
 reservations last, and for that lock the reserved bundles after the wallet. A transaction can become
 part of a deadlock exactly when its own list of locks is out of order.
 */
module LockOrder {

  datatype Lock =
    | CustomerRow(id: nat)
    | CampaignRow(id: nat)
    | BundleRow(id: nat)
    | CampaignAdvisory(id: nat)
    | WalletRow(id: nat)
  {
    function Rank(): nat {
      match this
      case CustomerRow(_) => 0
      case CampaignRow(_) => 1
      case BundleRow(_) => 2
      case CampaignAdvisory(_) => 3
      case WalletRow(_) => 4
    }
  }

  /** Classes in the order of their ranks, and rows of one class by id. */
  predicate Less(a: Lock, b: Lock) {
    a.Rank() < b.Rank() || (a.Rank() == b.Rank() && a.id < b.id)
  }

  /** What a finalization locks of its audience: nothing, or its bundle and those of what it replaces. */
  datatype Targeting =
    | Standard
    | SmartTest(bundle: nat, headers: seq<nat>, calculations: seq<nat>)
    | SmartExecution(bundle: nat, sampled: seq<nat>)

  /**
   The bundles a release locks: those of the active test reservations, then those of the active
   execution reservations and of the committed calculations.
   */
  datatype Reserved = Reserved(sampled: seq<nat>, headers: seq<nat>, calculations: seq<nat>)

  /** The transactions, with the rows each one locks. Approval locks a bundle unless the audience is a file. */
  datatype Transaction =
    | SaveDraft(campaign: nat)
    | Finalize(campaign: nat, targeting: Targeting, wallet: nat)
    | Approve(campaign: nat, bundle: nat, usesBundle: bool, wallet: nat)
    | Reject(campaign: nat, wallet: nat, reserved: Reserved)
    | Cancel(campaign: nat, wallet: nat, reserved: Reserved)
    | AdminCancel(campaign: nat, wallet: nat, reserved: Reserved)
    | Expire(campaign: nat, wallet: nat, reserved: Reserved)
    | Reconcile(campaign: nat, wallet: nat)
    | MoveStatus(campaign: nat)
    | AllocateAudience(bundle: nat)
    | RequestEvaluation(customer: nat, bundle: nat)
  {
    predicate Releases() { Reject? || Cancel? || AdminCancel? || Expire? }
  }

  function Bundles(ids: seq<nat>): (locks: seq<Lock>)
    ensures |locks| == |ids| && forall i :: 0 <= i < |ids| ==> locks[i] == BundleRow(ids[i])
  {
    seq(|ids|, i requires 0 <= i < |ids| => BundleRow(ids[i]))
  }

  /** Every id once, in the order of its first occurrence. */
  function Unique(ids: seq<nat>): (r: seq<nat>)
    ensures forall id :: id in r <==> id in ids
    ensures forall i, j :: 0 <= i < j < |r| ==> r[i] != r[j]
  {
    if ids == [] then []
    else
      var rest, last := Unique(ids[..|ids| - 1]), ids[|ids| - 1];
      assert ids == ids[..|ids| - 1] + [last];
      if last in rest then rest else rest + [last]
  }

  /** Retiring what a campaign reserved takes the campaign's lock, which it has, once more. */
  function Retire(campaign: nat, bundles: seq<nat>): seq<Lock> {
    [CampaignRow(campaign)] + Bundles(bundles)
  }

  function Release(campaign: nat, r: Reserved): seq<Lock> {
    Retire(campaign, r.sampled) + Retire(campaign, Unique(r.headers + r.calculations))
  }

  function Targeted(campaign: nat, t: Targeting): seq<Lock> {
    match t
    case Standard => []
    case SmartTest(b, headers, calculations) => [BundleRow(b)] + Retire(campaign, Unique(headers + calculations))
    case SmartExecution(b, sampled) => [BundleRow(b)] + Retire(campaign, sampled)
  }

  /** Locks in the order the transaction asks for them. */
  function Program(t: Transaction): (locks: seq<Lock>)
    ensures locks != []
  {
    match t
    case SaveDraft(c) => [CampaignRow(c)]
    case Finalize(c, targeting, w) => [CampaignRow(c)] + Targeted(c, targeting) + [WalletRow(w)]
    case Approve(c, b, uses, w) => [CampaignRow(c)] + (if uses then [BundleRow(b)] else []) + [WalletRow(w)]
    case Reject(c, w, r) => [CampaignRow(c), WalletRow(w)] + Release(c, r)
    case Cancel(c, w, r) => [CampaignRow(c), WalletRow(w)] + Release(c, r)
    case AdminCancel(c, w, r) => [CampaignRow(c), WalletRow(w)] + Release(c, r)
    case Expire(c, w, r) => [CampaignRow(c), WalletRow(w)] + Release(c, r)
    case Reconcile(c, w) => [CampaignRow(c), CampaignAdvisory(c), WalletRow(w)]
    case MoveStatus(c) => [CampaignRow(c)]
    case AllocateAudience(b) => [BundleRow(b)]
    case RequestEvaluation(u, b) => [CustomerRow(u), BundleRow(b)]
  }

  /** The lock was taken before, or comes after all locks that were. */
  predicate InPlace(locks: seq<Lock>, j: nat)
    requires j < |locks|
  {
    locks[j] in locks[..j] || forall i :: 0 <= i < j ==> Less(locks[i], locks[j])
  }

  predicate Ordered(locks: seq<Lock>) {
    forall j :: 0 <= j < |locks| ==> InPlace(locks, j)
  }

  // ---------------------------------------------------------------- which transactions are in order

  /** Nothing is reserved: no query of a release finds a bundle. */
  predicate Nothing(r: Reserved) {
    r.sampled == [] && r.headers == [] && r.calculations == []
  }

  predicate AfterOwnAt(own: nat, retired: seq<nat>, j: nat)
    requires j < |retired|
  {
    retired[j] == own || retired[j] in retired[..j] ||
    (own < retired[j] && forall i :: 0 <= i < j ==> retired[i] < retired[j])
  }

  /** Beside its own bundle a finalization retires only larger ones, in ascending order. */
  predicate AfterOwn(own: nat, retired: seq<nat>) {
    forall j :: 0 <= j < |retired| ==> AfterOwnAt(own, retired, j)
  }

  /** What can be checked of a transaction before it takes its first lock. */
  predicate InOrder(t: Transaction) {
    match t
    case Finalize(_, SmartTest(own, headers, calculations), _) => AfterOwn(own, Unique(headers + calculations))
    case Finalize(_, SmartExecution(own, sampled), _) => AfterOwn(own, sampled)
    case Reject(_, _, reserved) => Nothing(reserved)
    case Cancel(_, _, reserved) => Nothing(reserved)
    case AdminCancel(_, _, reserved) => Nothing(reserved)
    case Expire(_, _, reserved) => Nothing(reserved)
    case _ => true
  }

  lemma {:induction false} ReleaseIsOrderedIff(c: nat, w: nat, r: Reserved)
    ensures Ordered([CampaignRow(c), WalletRow(w)] + Release(c, r)) <==> Nothing(r)
  {
    var second := Unique(r.headers + r.calculations);
    var locks := [CampaignRow(c), WalletRow(w)] + Release(c, r);
    assert locks[0] == CampaignRow(c) && locks[1] == WalletRow(w) && locks[2] == CampaignRow(c);
    if r.sampled != [] {
      assert locks[3] == BundleRow(r.sampled[0]) && !Less(locks[1], locks[3]);
      assert BundleRow(r.sampled[0]) !in locks[..3];
      assert !InPlace(locks, 3);
    } else if r.headers != [] || r.calculations != [] {
      assert (r.headers + r.calculations)[0] in r.headers + r.calculations;
      assert second != [];
      assert locks[3] == CampaignRow(c) && locks[4] == BundleRow(second[0]) && !Less(locks[1], locks[4]);
      assert BundleRow(second[0]) !in locks[..4];
      assert !InPlace(locks, 4);
    } else {
      assert locks == [CampaignRow(c), WalletRow(w), CampaignRow(c), CampaignRow(c)];
    }
  }

  function Retiring(c: nat, own: nat, retired: seq<nat>, w: nat): (locks: seq<Lock>)
    ensures |locks| == |retired| + 4 && locks[0] == locks[2] == CampaignRow(c) && locks[1] == BundleRow(own)
    ensures forall i :: 0 <= i < |retired| ==> locks[i + 3] == BundleRow(retired[i])
    ensures locks[|retired| + 3] == WalletRow(w)
  {
    [CampaignRow(c)] + ([BundleRow(own)] + Retire(c, retired)) + [WalletRow(w)]
  }

  lemma {:induction false} SameBundles(ids: seq<nat>, id: nat)
    ensures BundleRow(id) in Bundles(ids) <==> id in ids
  {
    if id in ids {
      var i: nat :| i < |ids| && ids[i] == id;
      assert Bundles(ids)[i] == BundleRow(id);
    }
  }

  lemma {:induction false} RetiredBefore(c: nat, own: nat, retired: seq<nat>, w: nat, j: nat)
    requires j < |retired|
    ensures
      BundleRow(retired[j]) in Retiring(c, own, retired, w)[..j + 3] <==>
      retired[j] == own || retired[j] in retired[..j]
  {
    var locks := Retiring(c, own, retired, w);
    SameBundles(retired[..j], retired[j]);
    assert locks[..j + 3] == [CampaignRow(c), BundleRow(own), CampaignRow(c)] + Bundles(retired[..j]);
  }

  lemma {:induction false} RetiredAbove(c: nat, own: nat, retired: seq<nat>, w: nat, j: nat)
    requires j < |retired|
    ensures
      var locks := Retiring(c, own, retired, w);
      (forall i :: 0 <= i < j + 3 ==> Less(locks[i], locks[j + 3])) <==>
      own < retired[j] && forall i :: 0 <= i < j ==> retired[i] < retired[j]
  {
    var locks := Retiring(c, own, retired, w);
    hide Retiring, Bundles;
    if forall i :: 0 <= i < j + 3 ==> Less(locks[i], locks[j + 3]) {
      assert Less(locks[1], locks[j + 3]);
      forall i | 0 <= i < j
        ensures retired[i] < retired[j]
      {
        assert Less(locks[i + 3], locks[j + 3]);
      }
    }
    if own < retired[j] && forall i :: 0 <= i < j ==> retired[i] < retired[j] {
      forall i | 0 <= i < j + 3
        ensures Less(locks[i], locks[j + 3])
      {
        assert i >= 3 ==> locks[i] == BundleRow(retired[i - 3]) && retired[i - 3] < retired[j];
      }
    }
  }

  lemma {:induction false} RetiredInPlaceIff(c: nat, own: nat, retired: seq<nat>, w: nat, j: nat)
    requires j < |retired|
    ensures InPlace(Retiring(c, own, retired, w), j + 3) <==> AfterOwnAt(own, retired, j)
  {
    hide Retiring, Less;
    RetiredBefore(c, own, retired, w, j);
    RetiredAbove(c, own, retired, w, j);
  }

  lemma {:induction false} EdgesInPlace(c: nat, own: nat, retired: seq<nat>, w: nat, j: nat)
    requires j < 3 || j == |retired| + 3
    ensures InPlace(Retiring(c, own, retired, w), j)
  {
    var locks := Retiring(c, own, retired, w);
    hide Retiring;
    if j == 2 {
      assert locks[..2][0] == locks[2];
    } else if j == |retired| + 3 {
      forall i | 0 <= i < j
        ensures Less(locks[i], locks[j])
      {
        assert i >= 3 ==> locks[i] == BundleRow(retired[i - 3]);
      }
    }
  }

  lemma {:induction false} RetiringIsOrderedIff(c: nat, own: nat, retired: seq<nat>, w: nat)
    ensures Ordered(Retiring(c, own, retired, w)) <==> AfterOwn(own, retired)
  {
    hide Retiring, InPlace, AfterOwnAt;
    var locks := Retiring(c, own, retired, w);
    forall j | 0 <= j < |retired|
      ensures InPlace(locks, j + 3) <==> AfterOwnAt(own, retired, j)
    {
      RetiredInPlaceIff(c, own, retired, w, j);
    }
    forall j | 0 <= j < |locks| && (j < 3 || j == |retired| + 3)
      ensures InPlace(locks, j)
    {
      EdgesInPlace(c, own, retired, w, j);
    }
    if Ordered(locks) {
      forall j | 0 <= j < |retired|
        ensures AfterOwnAt(own, retired, j)
      {
        assert InPlace(locks, j + 3);
      }
    }
    if AfterOwn(own, retired) {
      forall j | 0 <= j < |locks|
        ensures InPlace(locks, j)
      {
        assert 3 <= j < |retired| + 3 ==> AfterOwnAt(own, retired, j - 3);
      }
    }
  }

  /** The test made before the locks says exactly whether the locks will be taken in order. */
  lemma {:induction false} OrderedIff(t: Transaction)
    ensures Ordered(Program(t)) <==> InOrder(t)
  {
    hide Ordered, AfterOwn, Nothing;
    match t
    case Finalize(c, SmartTest(own, headers, calculations), w) =>
      RetiringIsOrderedIff(c, own, Unique(headers + calculations), w);
    case Finalize(c, SmartExecution(own, sampled), w) => RetiringIsOrderedIff(c, own, sampled, w);
    case Reject(c, w, r) => ReleaseIsOrderedIff(c, w, r);
    case Cancel(c, w, r) => ReleaseIsOrderedIff(c, w, r);
    case AdminCancel(c, w, r) => ReleaseIsOrderedIff(c, w, r);
    case Expire(c, w, r) => ReleaseIsOrderedIff(c, w, r);
    case _ => OthersAreOrdered(t);
  }

  lemma {:induction false} OthersAreOrdered(t: Transaction)
    requires !t.Releases() && (t.Finalize? ==> t.targeting.Standard?)
    ensures Ordered(Program(t))
  {
  }

  // ---------------------------------------------------------------- all interleavings

  /** Running transactions by id: the locks each still asks for; and who holds each taken lock. */
  datatype State = State(running: map<nat, seq<Lock>>, holder: map<Lock, nat>)

  datatype Event = Begin(id: nat, t: Transaction) | Acquire(id: nat) | End(id: nat)

  predicate Holds(s: State, id: nat, lock: Lock) {
    lock in s.holder && s.holder[lock] == id
  }

  predicate Waits(s: State, id: nat, other: nat) {
    id in s.running && s.running[id] != [] && other != id && Holds(s, other, s.running[id][0])
  }

  /** A lock that one holds is granted again. Commit or rollback may come at any time and releases everything. */
  function Step(s: State, e: Event): (r: State) {
    match e
    case Begin(id, t) => if id in s.running then s else s.(running := s.running[id := Program(t)])
    case Acquire(id) =>
      if id !in s.running || s.running[id] == [] then s
      else
        var lock := s.running[id][0];
        if lock in s.holder && s.holder[lock] != id then s
        else State(s.running[id := s.running[id][1..]], s.holder[lock := id])
    case End(id) =>
      State(s.running - {id}, map lock | lock in s.holder && s.holder[lock] != id :: s.holder[lock])
  }

  function Run(s: State, es: seq<Event>): (r: State)
    decreases |es|
  {
    if es == [] then s else Run(Step(s, es[0]), es[1..])
  }

  const IDLE := State(map[], map[])

  /** Every transaction that begins is in order. */
  predicate AllInOrder(es: seq<Event>) {
    forall e :: e in es && e.Begin? ==> InOrder(e.t)
  }

  /** What it asks for it has, has asked for earlier, or comes after all of that. */
  ghost predicate ClimbsAt(s: State, id: nat, rest: seq<Lock>, j: nat)
    requires j < |rest|
  {
    || Holds(s, id, rest[j])
    || rest[j] in rest[..j]
    || ((forall lock :: Holds(s, id, lock) ==> Less(lock, rest[j])) &&
        (forall i :: 0 <= i < j ==> Less(rest[i], rest[j])))
  }

  ghost predicate Climbs(s: State, id: nat)
    requires id in s.running
  {
    forall j :: 0 <= j < |s.running[id]| ==> ClimbsAt(s, id, s.running[id], j)
  }

  ghost predicate Inv(s: State) {
    && (forall lock :: lock in s.holder ==> s.holder[lock] in s.running)
    && (forall id :: id in s.running ==> Climbs(s, id))
  }

  lemma {:induction false} GrantKeepsClimbing(s: State, id: nat, j: nat)
    requires id in s.running && Climbs(s, id) && Step(s, Acquire(id)) != s && j + 1 < |s.running[id]|
    ensures ClimbsAt(Step(s, Acquire(id)), id, s.running[id][1..], j)
  {
    var t, rest := Step(s, Acquire(id)), s.running[id];
    var after := rest[1..];
    assert ClimbsAt(s, id, rest, j + 1);
    assert rest[..j + 1] == [rest[0]] + after[..j];
    assert forall i :: 0 <= i < j ==> after[i] == rest[i + 1];
    assert forall lock :: Holds(t, id, lock) <==> lock == rest[0] || Holds(s, id, lock);
  }

  lemma {:induction false} OthersKeepClimbing(s: State, t: State, id: nat)
    requires id in s.running && id in t.running && t.running[id] == s.running[id] && Climbs(s, id)
    requires forall lock :: Holds(t, id, lock) <==> Holds(s, id, lock)
    ensures Climbs(t, id)
  {
    forall j | 0 <= j < |t.running[id]|
      ensures ClimbsAt(t, id, t.running[id], j)
    {
      assert ClimbsAt(s, id, s.running[id], j);
    }
  }

  lemma {:induction false} BeginClimbs(s: State, id: nat, t: Transaction)
    requires Inv(s) && id !in s.running && Ordered(Program(t))
    ensures Climbs(Step(s, Begin(id, t)), id)
  {
    hide Program;
    var r := Step(s, Begin(id, t));
    forall j | 0 <= j < |r.running[id]|
      ensures ClimbsAt(r, id, r.running[id], j)
    {
      assert InPlace(Program(t), j);
    }
  }

  lemma {:induction false} StepKeepsInv(s: State, e: Event)
    requires Inv(s) && (e.Begin? ==> InOrder(e.t))
    ensures Inv(Step(s, e))
  {
    hide InOrder, Program, Ordered, ClimbsAt;
    var t := Step(s, e);
    if t != s {
      forall id | id in t.running
        ensures Climbs(t, id)
      {
        if e.Begin? && id == e.id {
          OrderedIff(e.t);
          BeginClimbs(s, id, e.t);
        } else if e.Acquire? && id == e.id {
          forall j | 0 <= j < |t.running[id]|
            ensures ClimbsAt(t, id, t.running[id], j)
          {
            GrantKeepsClimbing(s, id, j);
          }
        } else {
          OthersKeepClimbing(s, t, id);
        }
      }
    }
  }

  lemma {:induction false} RunKeepsInv(s: State, es: seq<Event>)
    requires Inv(s) && AllInOrder(es)
    ensures Inv(Run(s, es))
    decreases |es|
  {
    hide InOrder;
    if es != [] {
      assert es[0] in es;
      StepKeepsInv(s, es[0]);
      hide Step, Inv;
      RunKeepsInv(Step(s, es[0]), es[1..]);
    }
  }

  // ---------------------------------------------------------------- transactions in order never deadlock

  /** The lock a waiting transaction asks for. */
  function Wanted(s: State, id: nat): Lock
    requires id in s.running && s.running[id] != []
  {
    s.running[id][0]
  }

  /** Whoever is waited for asks for a larger lock, if it waits too. */
  lemma {:induction false} WaitingClimbs(s: State, id: nat, other: nat, third: nat)
    requires Inv(s) && Waits(s, id, other) && Waits(s, other, third)
    ensures Less(Wanted(s, id), Wanted(s, other))
  {
    assert Climbs(s, other);
    assert ClimbsAt(s, other, s.running[other], 0);
    assert Holds(s, other, Wanted(s, id));
  }

  /** Each waits for the next one. */
  predicate Chain(s: State, ids: seq<nat>) {
    forall i :: 0 <= i < |ids| - 1 ==> Waits(s, ids[i], ids[i + 1])
  }

  lemma {:induction false} ChainsClimb(s: State, ids: seq<nat>, next: nat)
    requires Inv(s) && Chain(s, ids) && |ids| >= 2 && Waits(s, ids[|ids| - 1], next)
    ensures Waits(s, ids[0], ids[1]) && Less(Wanted(s, ids[0]), Wanted(s, ids[|ids| - 1]))
    decreases |ids|
  {
    hide Inv;
    var front, last := ids[..|ids| - 1], ids[|ids| - 1];
    assert Waits(s, ids[|ids| - 2], last);
    WaitingClimbs(s, ids[|ids| - 2], last, next);
    if |ids| > 2 {
      ChainsClimb(s, front, last);
    }
  }

  /** Transactions that wait for each other in a ring. */
  predicate Deadlocked(s: State, ids: seq<nat>) {
    |ids| >= 2 && Chain(s, ids) && ids[0] == ids[|ids| - 1]
  }

  /** As long as all transactions are in order, no interleaving of any number of them deadlocks. */
  lemma {:induction false} NoDeadlock(es: seq<Event>, ids: seq<nat>)
    requires AllInOrder(es)
    ensures !Deadlocked(Run(IDLE, es), ids)
  {
    hide Run, AllInOrder, Inv, Less;
    var s := Run(IDLE, es);
    IdleFits();
    RunKeepsInv(IDLE, es);
    if Deadlocked(s, ids) {
      assert Waits(s, ids[0], ids[1]);
      ChainsClimb(s, ids, ids[1]);
      LessIsStrict(Wanted(s, ids[0]));
      assert false;
    }
  }

  lemma {:induction false} IdleFits()
    ensures Inv(IDLE)
  {
  }

  lemma {:induction false} LessIsStrict(a: Lock)
    ensures !Less(a, a)
  {
  }

  // ---------------------------------------------------------------- one transaction out of order is enough

  /** All transactions of the run are in order, but for those like one of them. */
  predicate InOrderBeside(t: Transaction, es: seq<Event>) {
    forall e :: e in es && e.Begin? ==> e.t == t || InOrder(e.t)
  }

  ghost predicate Deadlocks(t: Transaction, es: seq<Event>, ids: seq<nat>) {
    InOrderBeside(t, es) && Deadlocked(Run(IDLE, es), ids)
  }

  /** Among transactions that are all in order it can come to a deadlock with this one. */
  ghost predicate CanDeadlock(t: Transaction) {
    exists es, ids :: Deadlocks(t, es, ids)
  }

  /** So many grants to one transaction in a row. */
  function Grants(id: nat, n: nat): (es: seq<Event>)
    ensures |es| == n && forall i :: 0 <= i < n ==> es[i] == Acquire(id)
  {
    seq(n, i => Acquire(id))
  }

  lemma {:induction false} RunInParts(s: State, a: seq<Event>, b: seq<Event>)
    ensures Run(s, a + b) == Run(Run(s, a), b)
    decreases |a|
  {
    hide Step;
    if a == [] {
      assert a + b == b;
    } else {
      assert (a + b)[0] == a[0] && (a + b)[1..] == a[1..] + b;
      RunInParts(Step(s, a[0]), a[1..], b);
    }
  }

  /** A transaction is granted as many locks as nobody else holds; nothing else changes. */
  lemma {:induction false} GrantsAreGranted(s: State, id: nat, n: nat)
    requires id in s.running && n <= |s.running[id]|
    requires forall j :: 0 <= j < n ==> s.running[id][j] !in s.holder || s.holder[s.running[id][j]] == id
    ensures
      var t := Run(s, Grants(id, n));
      && t.running == s.running[id := s.running[id][n..]]
      && (forall lock :: Holds(t, id, lock) <==> Holds(s, id, lock) || lock in s.running[id][..n])
      && (forall lock :: lock !in s.running[id][..n] ==>
            (lock in t.holder <==> lock in s.holder) && (lock in s.holder ==> t.holder[lock] == s.holder[lock]))
    decreases n
  {
    var rest := s.running[id];
    if n == 0 {
      assert s.running == s.running[id := rest[0..]];
    } else {
      var t := Step(s, Acquire(id));
      assert Grants(id, n)[1..] == Grants(id, n - 1);
      assert t.running[id] == rest[1..];
      GrantsAreGranted(t, id, n - 1);
      var r := Run(t, Grants(id, n - 1));
      assert Run(s, Grants(id, n)) == r;
      assert rest[..n] == [rest[0]] + rest[1..][..n - 1];
      assert rest[1..][n - 1..] == rest[n..];
    }
  }

  /** The campaign of a transaction that can be out of order. */
  function CampaignOf(t: Transaction): nat
    requires !InOrder(t)
  {
    t.campaign
  }

  /** Such a transaction locks its campaign, bundles and a wallet; only a bundle can be out of place. */
  lemma {:induction false} OutOfOrderLocks(t: Transaction, k: nat)
    requires !InOrder(t) && k < |Program(t)|
    ensures
      var lock := Program(t)[k];
      && (lock.CampaignRow? ==> lock.id == CampaignOf(t))
      && (lock.CampaignRow? || lock.BundleRow? || lock.WalletRow?)
      && (!lock.BundleRow? ==> InPlace(Program(t), k))
  {
    var c := t.campaign;
    match t
    case Finalize(_, SmartTest(own, headers, calculations), w) =>
      hide InPlace;
      RetiringLocks(c, own, Unique(headers + calculations), w, k);
    case Finalize(_, SmartExecution(own, sampled), w) =>
      hide InPlace;
      RetiringLocks(c, own, sampled, w, k);
    case Reject(_, w, r) => hide InPlace, Release; ReleaseLocks(c, w, r, k);
    case Cancel(_, w, r) => hide InPlace, Release; ReleaseLocks(c, w, r, k);
    case AdminCancel(_, w, r) => hide InPlace, Release; ReleaseLocks(c, w, r, k);
    case Expire(_, w, r) => hide InPlace, Release; ReleaseLocks(c, w, r, k);
  }

  lemma {:induction false} FirstAgain(locks: seq<Lock>, k: nat)
    requires k < |locks| && locks[k] == locks[0]
    ensures InPlace(locks, k)
  {
    assert k > 0 ==> locks[..k][0] == locks[k];
  }

  lemma {:induction false} ReleaseLocks(c: nat, w: nat, r: Reserved, k: nat)
    requires k < |[CampaignRow(c), WalletRow(w)] + Release(c, r)|
    ensures
      var locks := [CampaignRow(c), WalletRow(w)] + Release(c, r);
      && (locks[k].CampaignRow? ==> locks[k].id == c)
      && (locks[k].CampaignRow? || locks[k].BundleRow? || locks[k].WalletRow?)
      && (!locks[k].BundleRow? ==> InPlace(locks, k))
  {
    var locks := [CampaignRow(c), WalletRow(w)] + Release(c, r);
    if locks[k] == locks[0] { FirstAgain(locks, k); }
    if k == 1 { assert Less(locks[0], locks[1]); }
  }

  lemma {:induction false} RetiringLocks(c: nat, own: nat, retired: seq<nat>, w: nat, k: nat)
    requires k < |retired| + 4
    ensures
      var locks := Retiring(c, own, retired, w);
      && (locks[k].CampaignRow? ==> locks[k].id == c)
      && (locks[k].CampaignRow? || locks[k].BundleRow? || locks[k].WalletRow?)
      && (!locks[k].BundleRow? ==> InPlace(locks, k))
  {
    var locks := Retiring(c, own, retired, w);
    hide Retiring;
    if locks[k] == locks[0] { FirstAgain(locks, k); }
    forall i: nat | 3 <= i < |retired| + 3
      ensures locks[i] == BundleRow(retired[i - 3])
    {
      assert locks[(i - 3) + 3] == BundleRow(retired[i - 3]);
    }
    if k == |retired| + 3 {
      assert forall i :: 0 <= i < k ==> Less(locks[i], locks[k]);
    }
  }

  lemma {:induction false} LessOrLess(a: Lock, b: Lock)
    requires a != b && !Less(a, b)
    ensures Less(b, a)
  {
  }

  /** It asks for some bundle for the first time when it holds a larger lock, a bundle or a wallet. */
  lemma {:induction false} Inversion(t: Transaction) returns (i: nat, j: nat)
    requires !InOrder(t)
    ensures i < j < |Program(t)| && Program(t)[j].BundleRow? && Program(t)[j] !in Program(t)[..j]
    ensures Less(Program(t)[j], Program(t)[i]) && (Program(t)[i].BundleRow? || Program(t)[i].WalletRow?)
  {
    OrderedIff(t);
    hide InOrder, Program;
    var locks := Program(t);
    j :| 0 <= j < |locks| && !InPlace(locks, j);
    i :| 0 <= i < j && !Less(locks[i], locks[j]);
    OutOfOrderLocks(t, i);
    OutOfOrderLocks(t, j);
    assert locks[i] in locks[..j];
    LessOrLess(locks[i], locks[j]);
  }

  /** Of another campaign: it takes the smaller lock first and then asks for the larger one. */
  function Rival(campaign: nat, small: nat, large: Lock): (t: Transaction)
    requires large.WalletRow? || (large.BundleRow? && small < large.id)
    ensures InOrder(t)
  {
    if large.WalletRow? then Approve(campaign, small, true, large.id)
    else
      assert Unique([large.id] + []) == [large.id] by { UniqueOfOne(large.id); }
      Finalize(campaign, SmartTest(small, [large.id], []), 0)
  }

  lemma {:induction false} UniqueOfOne(id: nat)
    ensures Unique([id] + []) == [id]
  {
    assert [id] + [] == [id] && [id][..0] == [];
  }

  /** Grants after which the rival holds its campaign and the small bundle, and asks for the large lock. */
  function Head(large: Lock): nat { if large.WalletRow? then 2 else 3 }

  lemma {:induction false} RivalAsks(campaign: nat, small: nat, large: Lock)
    requires large.WalletRow? || (large.BundleRow? && small < large.id)
    ensures
      var locks := Program(Rival(campaign, small, large));
      var n := Head(large);
      && n < |locks| && locks[n] == large && BundleRow(small) in locks[..n]
      && forall lock :: lock in locks[..n] ==> lock == CampaignRow(campaign) || lock == BundleRow(small)
  {
    UniqueOfOne(large.id);
    var locks := Program(Rival(campaign, small, large));
    assert locks[0] == CampaignRow(campaign) && locks[1] == BundleRow(small);
    assert large.BundleRow? ==> locks[2] == CampaignRow(campaign) && locks[3] == large;
    assert locks[..Head(large)][1] == BundleRow(small);
  }

  /** The rival takes its campaign and the small bundle; the transaction takes everything before that bundle. */
  function Interleaving(t: Transaction, rival: Transaction, head: nat, j: nat): seq<Event> {
    [Begin(0, t), Begin(1, rival)] + Grants(1, head) + Grants(0, j)
  }

  lemma {:induction false} TwoBegin(t: Transaction, rival: Transaction)
    ensures Run(IDLE, [Begin(0, t), Begin(1, rival)]) == State(map[0 := Program(t), 1 := Program(rival)], map[])
  {
    hide Program;
    assert [Begin(0, t), Begin(1, rival)][1..] == [Begin(1, rival)];
    assert Step(IDLE, Begin(0, t)) == State(map[0 := Program(t)], map[]);
    assert Run(Step(IDLE, Begin(0, t)), [Begin(1, rival)]) == Run(Step(Step(IDLE, Begin(0, t)), Begin(1, rival)), []);
  }

  /** What both hold, and ask for, after the interleaving. */
  lemma {:induction false} InterleavingMeets(t: Transaction, rival: Transaction, head: nat, j: nat)
    requires head < |Program(rival)| && j < |Program(t)|
    requires forall lock :: lock in Program(rival)[..head] ==> lock !in Program(t)[..j]
    ensures
      var s := Run(IDLE, Interleaving(t, rival, head, j));
      && 0 in s.running && s.running[0] == Program(t)[j..] && 1 in s.running && s.running[1] == Program(rival)[head..]
      && (forall lock :: lock in Program(t)[..j] ==> Holds(s, 0, lock))
      && (forall lock :: lock in Program(rival)[..head] ==> Holds(s, 1, lock))
  {
    hide Program, Step;
    var begins := [Begin(0, t), Begin(1, rival)];
    var a := State(map[0 := Program(t), 1 := Program(rival)], map[]);
    var b := Run(a, Grants(1, head));
    TwoBegin(t, rival);
    RunInParts(IDLE, begins, Grants(1, head));
    RunInParts(IDLE, begins + Grants(1, head), Grants(0, j));
    hide Run;
    GrantsAreGranted(a, 1, head);
    forall k | 0 <= k < j
      ensures b.running[0][k] !in b.holder
    {
      assert Program(t)[k] in Program(t)[..j];
    }
    GrantsAreGranted(b, 0, j);
  }

  /** If each has what the other asks for next, they are deadlocked. */
  lemma {:induction false} MeetingDeadlocks(t: Transaction, rival: Transaction, head: nat, j: nat)
    requires head < |Program(rival)| && j < |Program(t)|
    requires forall lock :: lock in Program(rival)[..head] ==> lock !in Program(t)[..j]
    requires Program(rival)[head] in Program(t)[..j] && Program(t)[j] in Program(rival)[..head]
    ensures Deadlocked(Run(IDLE, Interleaving(t, rival, head, j)), [0, 1, 0])
  {
    hide Program, Run, Interleaving, Step;
    InterleavingMeets(t, rival, head, j);
    var s := Run(IDLE, Interleaving(t, rival, head, j));
    assert s.running[0][0] == Program(t)[j] && s.running[1][0] == Program(rival)[head];
    assert Waits(s, 0, 1) && Waits(s, 1, 0);
  }

  /** A transaction out of order deadlocks with some transaction that is in order. */
  lemma {:induction false} OutOfOrderDeadlocks(t: Transaction)
    requires !InOrder(t)
    ensures CanDeadlock(t)
  {
    var i, j := Inversion(t);
    var small, large := Program(t)[j].id, Program(t)[i];
    var campaign := CampaignOf(t) + 1;
    var rival, head := Rival(campaign, small, large), Head(large);
    RivalAsks(campaign, small, large);
    forall k | 0 <= k < j
      ensures Program(t)[k] != CampaignRow(campaign)
    {
      OutOfOrderLocks(t, k);
    }
    hide InOrder, Program, Rival, Head, Less, Run, Interleaving, Deadlocked, InPlace;
    assert large in Program(t)[..j];
    MeetingDeadlocks(t, rival, head, j);
    BesideTheRival(t, rival, head, j);
    assert Deadlocks(t, Interleaving(t, rival, head, j), [0, 1, 0]);
  }

  lemma {:induction false} BesideTheRival(t: Transaction, rival: Transaction, head: nat, j: nat)
    requires InOrder(rival)
    ensures InOrderBeside(t, Interleaving(t, rival, head, j))
  {
    hide InOrder;
    var es := Interleaving(t, rival, head, j);
    forall e | e in es && e.Begin?
      ensures e.t == t || InOrder(e.t)
    {
      var k :| 0 <= k < |es| && es[k] == e;
      assert k < 2;
    }
  }

  /**
   Among transactions that are in order, one can become part of a deadlock exactly when it is not in
   order itself, which can be told before it takes its first lock.
   */
  lemma {:induction false} CanDeadlockIff(t: Transaction)
    ensures CanDeadlock(t) <==> !InOrder(t)
  {
    if !InOrder(t) {
      OutOfOrderDeadlocks(t);
    } else {
      hide InOrder, Deadlocked, Run;
      forall es, ids
        ensures !Deadlocks(t, es, ids)
      {
        if InOrderBeside(t, es) {
          NoDeadlock(es, ids);
        }
      }
    }
  }

  /** For instance: the approval of one campaign and the cancellation of another, with one bundle and wallet. */
  lemma {:induction false} CancelMeetsApprove(bundle: nat, wallet: nat)
    ensures
      var cancel, approve := Cancel(1, wallet, Reserved([bundle], [], [])), Approve(2, bundle, true, wallet);
      Deadlocked(Run(IDLE, Interleaving(cancel, approve, 2, 3)), [0, 1, 0])
  {
    var cancel, approve := Cancel(1, wallet, Reserved([bundle], [], [])), Approve(2, bundle, true, wallet);
    CancelLocks(bundle, wallet);
    assert Program(approve) == [CampaignRow(2), BundleRow(bundle), WalletRow(wallet)];
    hide Program, Run, Interleaving, Deadlocked;
    assert BundleRow(bundle) in Program(approve)[..2] && WalletRow(wallet) in Program(cancel)[..3];
    MeetingDeadlocks(cancel, approve, 2, 3);
  }

  lemma {:induction false} CancelLocks(bundle: nat, wallet: nat)
    ensures
      var locks := Program(Cancel(1, wallet, Reserved([bundle], [], [])));
      |locks| > 3 && locks[3] == BundleRow(bundle) &&
      locks[..3] == [CampaignRow(1), WalletRow(wallet), CampaignRow(1)]
  {
  }

  // ---------------------------------------------------------------- progress and ownership

  /** A transaction that asks for a lock is stopped iff it waits for another; otherwise it holds the lock next. */
  lemma {:induction false} StoppedIffWaiting(s: State, id: nat)
    requires id in s.running && s.running[id] != []
    ensures
      var t := Step(s, Acquire(id));
      var lock := s.running[id][0];
      && (t == s <==> exists other :: Waits(s, id, other))
      && (t != s ==> t.holder == s.holder[lock := id] && t.running == s.running[id := s.running[id][1..]])
  {
    var lock := s.running[id][0];
    if lock in s.holder && s.holder[lock] != id {
      assert Waits(s, id, s.holder[lock]);
    } else {
      assert Step(s, Acquire(id)).running[id] != s.running[id];
    }
  }

  /** A lock stays with its holder, through any run in which that transaction does not end. */
  lemma {:induction false} LocksAreHeldToTheEnd(s: State, es: seq<Event>, id: nat, lock: Lock)
    requires Holds(s, id, lock) && End(id) !in es
    ensures Holds(Run(s, es), id, lock)
    decreases |es|
  {
    if es != [] {
      assert es[0] in es && forall e :: e in es[1..] ==> e in es;
      assert Holds(Step(s, es[0]), id, lock);
      hide Step;
      LocksAreHeldToTheEnd(Step(s, es[0]), es[1..], id, lock);
    }
  }

  /** And its end frees all its locks, and no others. */
  lemma {:induction false} EndFreesItsLocks(s: State, id: nat, lock: Lock)
    ensures lock in Step(s, End(id)).holder <==> lock in s.holder && s.holder[lock] != id
    ensures lock in Step(s, End(id)).holder ==> Step(s, End(id)).holder[lock] == s.holder[lock]
  {
  }

  /** Of some waiting transactions, one that asks for a largest lock. */
  lemma {:induction false} Highest(s: State, ids: set<nat>) returns (top: nat)
    requires ids != {} && forall id :: id in ids ==> id in s.running && s.running[id] != []
    ensures top in ids && forall id :: id in ids ==> !Less(Wanted(s, top), Wanted(s, id))
    decreases |ids|
  {
    var id :| id in ids;
    if ids == {id} {
      top := id;
    } else {
      var rest := ids - {id};
      assert ids == rest + {id};
      var best := Highest(s, rest);
      top := if Less(Wanted(s, best), Wanted(s, id)) then id else best;
      forall x | x in ids
        ensures !Less(Wanted(s, top), Wanted(s, x))
      {
        assert x == id || x in rest;
      }
    }
  }

  /** So as long as transactions are running, all of them in order, one of them waits for nobody. */
  lemma {:induction false} SomeoneProceeds(es: seq<Event>)
    requires AllInOrder(es) && Run(IDLE, es).running != map[]
    ensures
      var s := Run(IDLE, es);
      exists id :: id in s.running && forall other :: !Waits(s, id, other)
  {
    var s := Run(IDLE, es);
    IdleFits();
    RunKeepsInv(IDLE, es);
    hide Run, AllInOrder;
    var id :| id in s.running;
    var waiting := set w | w in s.running && exists other :: Waits(s, w, other);
    if waiting == {} {
      assert id !in waiting;
    } else {
      var top := Highest(s, waiting);
      var next :| Waits(s, top, next);
      assert next in s.running;
      forall other
        ensures !Waits(s, next, other)
      {
        if Waits(s, next, other) {
          assert next in waiting;
          WaitingClimbs(s, top, next, other);
        }
      }
    }
  }
}
