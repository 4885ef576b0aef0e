/**
 Bot, admin and campaign-test workers allocating short links at the same time.

 A worker looks its allocation key up, reserves tokens under the allocator's row lock, and inserts
 its rows; the unique index on the key makes the loser of a race roll back, reservation included, and
 read the winner's rows. Codes leave the program after the redirect service acknowledged them.
 */
module ShortLinkAllocation {
  import opened ShortLinkUids
  import opened Wrappers

  /** An allocation key names a request; the number of links it asks for is part of what it names. */
  datatype Key = Key(name: nat, count: nat)

  datatype Allocation = Allocation(key: Key, values: seq<nat>)

  datatype Worker =
    | Started(key: Key)
    | Missing(key: Key)
    | Holding(key: Key, values: seq<nat>, next: nat)
    | Lost(key: Key)
    | Found(key: Key, values: seq<nat>)
    | Returned(key: Key, values: seq<nat>)

  /** The row lock on the allocator. */
  datatype Lock = Unlocked | LockedBy(w: nat)

  /** Committed rows in commit order, the counter, the tokens in the table, and the allocator's lock. */
  datatype State = State(
    allocations: seq<Allocation>,
    next: nat,
    stored: set<string>,
    lock: Lock,
    workers: map<nat, Worker>,
    acknowledged: set<nat>)

  datatype Event =
    | Start(w: nat, key: Key)
    | Lookup(w: nat)
    | Reserve(w: nat)
    | Commit(w: nat)
    | Abort(w: nat)
    | Fallback(w: nat)
    | Publish(w: nat, acknowledges: bool)

  /** The rows under a key; the unique index leaves at most one allocation to find. */
  function ByKey(allocations: seq<Allocation>, key: Key): (values: seq<nat>)
  {
    if allocations == [] then []
    else if allocations[0].key == key then allocations[0].values
    else ByKey(allocations[1..], key)
  }

  predicate Committed(allocations: seq<Allocation>, key: Key) {
    exists i :: 0 <= i < |allocations| && allocations[i].key == key
  }

  function Tokens(values: seq<nat>): set<string>
  {
    set v | v in values && v < CAPACITY :: Uid(v)
  }

  function Goto(s: State, w: nat, q: Worker): State {
    s.(workers := s.workers[w := q])
  }

  function Release(s: State): State {
    s.(lock := Unlocked)
  }

  /**
   One atomic step. `published` says whether an external redirect service is configured: without one
   the codes are returned unacknowledged.
   */
  function Step(published: bool, s: State, e: Event): (r: State) {
    match e
    case Start(w, key) => if w !in s.workers && key.count > 0 then Goto(s, w, Started(key)) else s
    case Lookup(w) =>
      if w in s.workers && (s.workers[w].Started? || s.workers[w].Missing?) then
        var key := s.workers[w].key;
        if Committed(s.allocations, key) then Goto(s, w, Found(key, ByKey(s.allocations, key)))
          else Goto(s, w, Missing(key))
      else s
    case Reserve(w) =>
      if w in s.workers && s.workers[w].Missing? && s.lock == Unlocked then
        var key := s.workers[w].key;
        match Scan(s.stored, s.next, key.count)
        case OutOfTokens => Goto(s, w, Lost(key))
        case Reserved(values, next) => Goto(s.(lock := LockedBy(w)), w, Holding(key, values, next))
      else s
    case Commit(w) =>
      if w in s.workers && s.workers[w].Holding? then
        var q := s.workers[w];
        if Committed(s.allocations, q.key) then Goto(Release(s), w, Lost(q.key))
        else
          Goto(Release(s).(allocations := s.allocations + [Allocation(q.key, q.values)],
                           next := q.next, stored := s.stored + Tokens(q.values)),
               w, Found(q.key, q.values))
      else s
    case Abort(w) =>
      if w in s.workers && s.workers[w].Holding? then Goto(Release(s), w, Lost(s.workers[w].key)) else s
    case Fallback(w) =>
      if w in s.workers && s.workers[w].Lost? then
        var key := s.workers[w].key;
        if Committed(s.allocations, key) then Goto(s, w, Found(key, ByKey(s.allocations, key)))
        else s.(workers := s.workers - {w})
      else s
    case Publish(w, acknowledges) =>
      if w in s.workers && s.workers[w].Found? then
        var q := s.workers[w];
        if !published then Goto(s, w, Returned(q.key, q.values))
        else if acknowledges then
          Goto(s.(acknowledged := s.acknowledged + set v | v in q.values), w, Returned(q.key, q.values))
        else s.(workers := s.workers - {w})
      else s
  }

  function Run(published: bool, s: State, es: seq<Event>): (r: State)
    decreases |es|
  {
    if es == [] then s else Run(published, Step(published, s, es[0]), es[1..])
  }

  function Begin(start: nat, legacy: set<string>): State {
    State([], start, legacy, Unlocked, map[], {})
  }

  function Flatten(allocations: seq<Allocation>): (values: seq<nat>) {
    if allocations == [] then [] else Flatten(allocations[..|allocations| - 1]) + allocations[|allocations| - 1].values
  }

  // ---------------------------------------------------------------- what every interleaving keeps

  /** The rows under one key are the ones every worker that finished with this key has. */
  predicate WorkerFits(published: bool, s: State, w: nat, q: Worker) {
    && q.key.count > 0
    && (q.Holding? ==> s.lock == LockedBy(w) && Scan(s.stored, s.next, q.key.count) == Reserved(q.values, q.next))
    && (q.Found? || q.Returned? ==> Allocation(q.key, q.values) in s.allocations)
    && (q.Returned? && published ==> forall v :: v in q.values ==> v in s.acknowledged)
  }

  /** No token is leaked or given twice: the committed rows, in order, are all the free tokens passed. */
  predicate Ledgered(s: State, start: nat, legacy: set<string>) {
    && start <= s.next <= CAPACITY
    && Flatten(s.allocations) == FreeIn(legacy, start, s.next)
    && (s.next > start ==> s.next - 1 in Flatten(s.allocations))
    && s.stored == legacy + Tokens(Flatten(s.allocations))
  }

  predicate UniqueKeys(allocations: seq<Allocation>) {
    && (forall i, j :: 0 <= i < j < |allocations| ==> allocations[i].key != allocations[j].key)
    && (forall i :: 0 <= i < |allocations| ==> |allocations[i].values| == allocations[i].key.count)
  }

  ghost predicate Inv(published: bool, s: State, start: nat, legacy: set<string>) {
    && Ledgered(s, start, legacy)
    && UniqueKeys(s.allocations)
    && (forall w :: w in s.workers ==> WorkerFits(published, s, w, s.workers[w]))
  }

  lemma {:induction false} FreeInSplits(taken: set<string>, a: nat, b: nat, c: nat)
    requires a <= b <= c
    ensures FreeIn(taken, a, b) + FreeIn(taken, b, c) == FreeIn(taken, a, c)
    decreases b - a
  {
    hide Occupied;
    if a == b {
      assert [] + FreeIn(taken, b, c) == FreeIn(taken, b, c);
    } else {
      FreeInSplits(taken, a + 1, b, c);
      if !Occupied(taken, a) {
        assert [a] + FreeIn(taken, a + 1, b) + FreeIn(taken, b, c)
          == [a] + (FreeIn(taken, a + 1, b) + FreeIn(taken, b, c));
      }
    }
  }

  /** Tokens given out below `lo` do not occupy anything from `lo` on. */
  lemma {:induction false} OwnTokensDoNotBlock(legacy: set<string>, given: seq<nat>, lo: nat, hi: nat)
    requires lo <= hi
    requires forall v :: v in given ==> v < lo
    ensures FreeIn(legacy + Tokens(given), lo, hi) == FreeIn(legacy, lo, hi)
    decreases hi - lo
  {
    if lo < hi {
      OwnTokensDoNotBlock(legacy, given, lo + 1, hi);
      OwnTokenIsElsewhere(legacy, given, lo);
    }
  }

  lemma {:induction false} OwnTokenIsElsewhere(legacy: set<string>, given: seq<nat>, x: nat)
    requires forall v :: v in given ==> v < x
    ensures Occupied(legacy + Tokens(given), x) <==> Occupied(legacy, x)
  {
    if x < CAPACITY && Uid(x) in Tokens(given) {
      var v :| v in given && v < CAPACITY && Uid(v) == Uid(x);
      UidIsInjective(v, x);
      assert false;
    }
  }

  lemma {:induction false} ByKeyFinds(allocations: seq<Allocation>, key: Key)
    requires Committed(allocations, key)
    ensures Allocation(key, ByKey(allocations, key)) in allocations
  {
    if allocations[0].key != key {
      var i :| 0 <= i < |allocations| && allocations[i].key == key;
      assert allocations[1..][i - 1].key == key;
      ByKeyFinds(allocations[1..], key);
      assert Allocation(key, ByKey(allocations[1..], key)) in allocations[1..];
    } else {
      assert allocations[0] == Allocation(key, ByKey(allocations, key));
    }
  }

  /** The rows of a committing worker are the free tokens the counter passes. */
  lemma {:induction false} CommitKeepsLedger(s: State, start: nat, legacy: set<string>, key: Key, values: seq<nat>,
      next: nat)
    requires Ledgered(s, start, legacy) && Scan(s.stored, s.next, key.count) == Reserved(values, next)
    ensures
      && start <= next <= CAPACITY
      && Flatten(s.allocations + [Allocation(key, values)]) == FreeIn(legacy, start, next)
      && s.stored + Tokens(values) == legacy + Tokens(Flatten(s.allocations + [Allocation(key, values)]))
  {
    hide Scan, FreeIn, Tokens, Occupied;
    var given := Flatten(s.allocations);
    assert forall v :: v in given ==> v < s.next;
    ScanTakesTheFirstFree(s.stored, s.next, key.count);
    OwnTokensDoNotBlock(legacy, given, s.next, next);
    FreeInSplits(legacy, start, s.next, next);
    var after := s.allocations + [Allocation(key, values)];
    assert after[..|after| - 1] == s.allocations;
    hide FreeIn;
    TokensOfBoth(given, values);
  }

  /** And the last of them is right before the counter's new position. */
  lemma {:induction false} CommitEndsOnTaken(s: State, key: Key, values: seq<nat>, next: nat)
    requires Scan(s.stored, s.next, key.count) == Reserved(values, next) && key.count > 0
    ensures next > 0 && next - 1 in Flatten(s.allocations + [Allocation(key, values)])
  {
    ScanStopsBehindItsLast(s.stored, s.next, key.count);
    hide Scan;
    var after := s.allocations + [Allocation(key, values)];
    assert after[..|after| - 1] == s.allocations;
    assert values[|values| - 1] in values;
  }

  lemma {:induction false} TokensOfBoth(a: seq<nat>, b: seq<nat>)
    ensures Tokens(a + b) == Tokens(a) + Tokens(b)
  {
  }

  lemma {:induction false} OthersFit(published: bool, s: State, s': State, w: nat, x: nat)
    requires x in s.workers && x != w && WorkerFits(published, s, x, s.workers[x])
    requires s'.allocations == s.allocations ||
      (|s'.allocations| > |s.allocations| && s'.allocations[..|s.allocations|] == s.allocations)
    requires s.workers[x].Holding? ==> s'.lock == s.lock && s'.stored == s.stored && s'.next == s.next
    requires s.acknowledged <= s'.acknowledged
    ensures WorkerFits(published, s', x, s.workers[x])
  {
  }

  lemma {:induction false} CommitKeepsInv(published: bool, s: State, start: nat, legacy: set<string>, w: nat)
    requires Inv(published, s, start, legacy) && w in s.workers && s.workers[w].Holding?
    requires !Committed(s.allocations, s.workers[w].key)
    ensures Inv(published, Step(published, s, Commit(w)), start, legacy)
  {
    hide Scan, FreeIn, Flatten, Tokens;
    var q := s.workers[w];
    var s' := Step(published, s, Commit(w));
    assert WorkerFits(published, s, w, q);
    CommitKeepsLedger(s, start, legacy, q.key, q.values, q.next);
    CommitEndsOnTaken(s, q.key, q.values, q.next);
    forall x | x in s'.workers
      ensures WorkerFits(published, s', x, s'.workers[x])
    {
      if x != w {
        assert WorkerFits(published, s, x, s.workers[x]);
        OthersFit(published, s, s', w, x);
      } else {
        assert s'.allocations[|s.allocations|] == Allocation(q.key, q.values);
      }
    }
  }

  lemma {:induction false} StepKeepsInv(published: bool, s: State, start: nat, legacy: set<string>, e: Event)
    requires Inv(published, s, start, legacy)
    ensures Inv(published, Step(published, s, e), start, legacy)
  {
    hide Scan, FreeIn, Flatten, Tokens;
    if e.Commit? && e.w in s.workers && s.workers[e.w].Holding? && !Committed(s.allocations, s.workers[e.w].key) {
      CommitKeepsInv(published, s, start, legacy, e.w);
    } else {
      var s' := Step(published, s, e);
      assert s'.allocations == s.allocations && s'.next == s.next && s'.stored == s.stored;
      forall x | x in s'.workers
        ensures WorkerFits(published, s', x, s'.workers[x])
      {
        QuietStepFits(published, s, e, x);
      }
    }
  }

  lemma {:induction false} QuietStepFits(published: bool, s: State, e: Event, x: nat)
    requires forall w :: w in s.workers ==> WorkerFits(published, s, w, s.workers[w])
    requires Step(published, s, e).allocations == s.allocations
    requires x in Step(published, s, e).workers
    ensures WorkerFits(published, Step(published, s, e), x, Step(published, s, e).workers[x])
  {
    hide Scan, ByKey;
    assert x in s.workers ==> WorkerFits(published, s, x, s.workers[x]);
    if (e.Lookup? || e.Fallback?) && e.w in s.workers && Committed(s.allocations, s.workers[e.w].key) {
      ByKeyFinds(s.allocations, s.workers[e.w].key);
    }
    if (e.Commit? || e.Abort? || e.Lookup? || e.Fallback? || e.Reserve? || e.Publish?) && e.w in s.workers {
      assert WorkerFits(published, s, e.w, s.workers[e.w]);
    }
  }

  lemma {:induction false} RunKeepsInv(published: bool, s: State, start: nat, legacy: set<string>, es: seq<Event>)
    requires Inv(published, s, start, legacy)
    ensures Inv(published, Run(published, s, es), start, legacy)
    decreases |es|
  {
    hide Inv, Step;
    if es != [] {
      StepKeepsInv(published, s, start, legacy, es[0]);
      RunKeepsInv(published, Step(published, s, es[0]), start, legacy, es[1..]);
    }
  }

  lemma {:induction false} BeginKeepsInv(published: bool, start: nat, legacy: set<string>)
    requires start <= CAPACITY
    ensures Inv(published, Begin(start, legacy), start, legacy)
  {
  }

  // ---------------------------------------------------------------- what callers get

  /** Every call that succeeds with one key gets the same tokens in the same order, as many as it asked for. */
  lemma {:induction false} SameKeySameCodes(published: bool, start: nat, legacy: set<string>, es: seq<Event>, w: nat,
      x: nat)
    requires start <= CAPACITY
    requires
      var s := Run(published, Begin(start, legacy), es);
      w in s.workers && x in s.workers && s.workers[w].Returned? && s.workers[x].Returned? &&
        s.workers[w].key == s.workers[x].key
    ensures
      var s := Run(published, Begin(start, legacy), es);
      s.workers[w].values == s.workers[x].values && |s.workers[w].values| == s.workers[w].key.count
  {
    hide Run, Ledgered, WorkerFits;
    BeginKeepsInv(published, start, legacy);
    RunKeepsInv(published, Begin(start, legacy), start, legacy, es);
    var s := Run(published, Begin(start, legacy), es);
    var i := WorkerHasAllocation(published, s, w);
    var j := WorkerHasAllocation(published, s, x);
    assert i == j;
  }

  lemma {:induction false} FreeInIncreases(taken: set<string>, lo: nat, hi: nat)
    requires lo <= hi
    ensures forall i, j :: 0 <= i < j < |FreeIn(taken, lo, hi)| ==> FreeIn(taken, lo, hi)[i] < FreeIn(taken, lo, hi)[j]
    decreases hi - lo
  {
    hide Occupied;
    if lo < hi {
      FreeInIncreases(taken, lo + 1, hi);
      var rest := FreeIn(taken, lo + 1, hi);
      assert forall k :: 0 <= k < |rest| ==> rest[k] in rest;
    }
  }

  /** Where the values of allocation `i` lie among all values. */
  lemma {:induction false} FlattenHolds(allocations: seq<Allocation>, i: nat, k: nat) returns (at: nat)
    requires i < |allocations| && k < |allocations[i].values|
    ensures at < |Flatten(allocations)| && Flatten(allocations)[at] == allocations[i].values[k]
    ensures at >= |Flatten(allocations[..i])| && at < |Flatten(allocations[..i + 1])|
  {
    var last := |allocations| - 1;
    if i == last {
      at := |Flatten(allocations[..last])| + k;
      assert allocations[..last + 1] == allocations;
    } else {
      at := FlattenHolds(allocations[..last], i, k);
      assert allocations[..last][..i] == allocations[..i] && allocations[..last][..i + 1] == allocations[..i + 1];
    }
  }

  lemma {:induction false} FlattenGrows(allocations: seq<Allocation>, i: nat, j: nat)
    requires i <= j <= |allocations|
    ensures |Flatten(allocations[..i])| <= |Flatten(allocations[..j])|
    decreases j
  {
    if i < j {
      assert allocations[..j][..j - 1] == allocations[..j - 1];
      FlattenGrows(allocations, i, j - 1);
    }
  }

  /** Two allocations of one ledger share no value. */
  lemma {:induction false} AllocationsAreDisjoint(
    allocations: seq<Allocation>, legacy: set<string>, lo: nat, hi: nat, i: nat, j: nat, a: nat, b: nat)
    requires lo <= hi && Flatten(allocations) == FreeIn(legacy, lo, hi)
    requires i < j < |allocations| && a < |allocations[i].values| && b < |allocations[j].values|
    ensures allocations[i].values[a] != allocations[j].values[b]
    ensures lo <= allocations[i].values[a] < hi && lo <= allocations[j].values[b] < hi
  {
    hide Occupied, FreeIn, Flatten;
    var at := FlattenHolds(allocations, i, a);
    var bt := FlattenHolds(allocations, j, b);
    FlattenGrows(allocations, i + 1, j);
    FreeInIncreases(legacy, lo, hi);
    assert Flatten(allocations)[at] in FreeIn(legacy, lo, hi) && Flatten(allocations)[bt] in FreeIn(legacy, lo, hi);
  }

  lemma {:induction false} WorkerHasAllocation(published: bool, s: State, w: nat) returns (i: nat)
    requires w in s.workers && s.workers[w].Returned? && WorkerFits(published, s, w, s.workers[w])
    ensures i < |s.allocations| && s.allocations[i] == Allocation(s.workers[w].key, s.workers[w].values)
  {
    hide Scan;
    i :| 0 <= i < |s.allocations| && s.allocations[i] == Allocation(s.workers[w].key, s.workers[w].values);
  }

  /** Calls with different keys share no token. */
  lemma {:induction false} DifferentKeysDisjointCodes(
    published: bool, start: nat, legacy: set<string>, es: seq<Event>, w: nat, x: nat, a: nat, b: nat)
    requires start <= CAPACITY
    requires
      var s := Run(published, Begin(start, legacy), es);
      w in s.workers && x in s.workers && s.workers[w].Returned? && s.workers[x].Returned? &&
        s.workers[w].key != s.workers[x].key &&
      a < |s.workers[w].values| && b < |s.workers[x].values|
    ensures
      var s := Run(published, Begin(start, legacy), es);
      var u, v := s.workers[w].values[a], s.workers[x].values[b];
      u < CAPACITY && v < CAPACITY && Uid(u) != Uid(v)
  {
    hide Run, Uid, WorkerFits, Flatten, FreeIn, UniqueKeys;
    BeginKeepsInv(published, start, legacy);
    RunKeepsInv(published, Begin(start, legacy), start, legacy, es);
    var s := Run(published, Begin(start, legacy), es);
    var i := WorkerHasAllocation(published, s, w);
    var j := WorkerHasAllocation(published, s, x);
    if i < j {
      AllocationsAreDisjoint(s.allocations, legacy, start, s.next, i, j, a, b);
    } else {
      AllocationsAreDisjoint(s.allocations, legacy, start, s.next, j, i, b, a);
    }
    var u, v := s.workers[w].values[a], s.workers[x].values[b];
    if Uid(u) == Uid(v) {
      UidIsInjective(u, v);
    }
  }

  /**
   In every interleaving the counter has moved by the committed rows plus the older tokens it passed: by
   exactly the rows iff no older token is among as many tokens from the start as there are rows.
   */
  lemma {:induction false} CounterMovesByCommittedRows(published: bool, start: nat, legacy: set<string>, es: seq<Event>)
    requires start <= CAPACITY
    ensures
      var s := Run(published, Begin(start, legacy), es);
      && s.next >= start
      && s.next - start == |Flatten(s.allocations)| + OccupiedCount(legacy, start, s.next)
      && (s.next - start == |Flatten(s.allocations)| <==>
            forall v :: start <= v < start + |Flatten(s.allocations)| ==> !Occupied(legacy, v))
  {
    hide Run, Flatten, FreeIn, OccupiedCount, Occupied, UniqueKeys;
    BeginKeepsInv(published, start, legacy);
    RunKeepsInv(published, Begin(start, legacy), start, legacy, es);
    var s := Run(published, Begin(start, legacy), es);
    FreeAndOccupiedFillTheRange(legacy, start, s.next);
    NoneOccupiedIff(legacy, start, s.next);
    if forall v :: start <= v < start + |Flatten(s.allocations)| ==> !Occupied(legacy, v) {
      NothingPassed(legacy, start, start + |Flatten(s.allocations)|, s.next);
    }
  }

  /** If the last token passed is free, and so are the first ones, there is none in between to pass. */
  lemma {:induction false} NothingPassed(taken: set<string>, start: nat, behind: nat, next: nat)
    requires start <= behind <= next && forall v :: start <= v < behind ==> !Occupied(taken, v)
    requires |FreeIn(taken, start, next)| == behind - start && (next > start ==> !Occupied(taken, next - 1))
    ensures behind == next
  {
    hide Occupied;
    FreeAndOccupiedFillTheRange(taken, start, behind);
    NoneOccupiedIff(taken, start, behind);
    if behind < next {
      assert next - 1 in FreeIn(taken, behind, next);
      FreeInSplits(taken, start, behind, next);
      assert false;
    }
  }

  lemma {:induction false} FreeAndOccupiedFillTheRange(taken: set<string>, lo: nat, hi: nat)
    requires lo <= hi
    ensures |FreeIn(taken, lo, hi)| + OccupiedCount(taken, lo, hi) == hi - lo
    decreases hi - lo
  {
    hide Occupied;
    if lo < hi {
      FreeAndOccupiedFillTheRange(taken, lo + 1, hi);
    }
  }

  /** With a redirect service configured, no code is returned that it has not acknowledged. */
  lemma {:induction false} ReturnedCodesAreAcknowledged(start: nat, legacy: set<string>, es: seq<Event>, w: nat, v: nat)
    requires start <= CAPACITY
    requires
      var s := Run(true, Begin(start, legacy), es);
      w in s.workers && s.workers[w].Returned? && v in s.workers[w].values
    ensures v in Run(true, Begin(start, legacy), es).acknowledged
  {
    hide Run, Ledgered, UniqueKeys;
    BeginKeepsInv(true, start, legacy);
    RunKeepsInv(true, Begin(start, legacy), start, legacy, es);
    var s := Run(true, Begin(start, legacy), es);
    assert WorkerFits(true, s, w, s.workers[w]);
  }

  /** Without one, codes are returned although nothing was acknowledged. */
  lemma {:induction false} UnconfiguredServiceReturnsUnacknowledged()
    ensures
      var es := [Start(0, Key(7, 1)), Lookup(0), Reserve(0), Commit(0), Publish(0, true)];
      var s := Run(false, Begin(0, {}), es);
      0 in s.workers && s.workers[0] == Returned(Key(7, 1), [0]) && s.acknowledged == {}
  {
    var es := [Start(0, Key(7, 1)), Lookup(0), Reserve(0), Commit(0), Publish(0, true)];
    var key := Key(7, 1);
    assert Scan({}, 1, 0) == Reserved([], 1);
    assert Scan({}, 0, 1) == Reserved([0], 1) by { assert !Occupied({}, 0); assert [0] + [] == [0]; }
    hide Scan;
    var s0 := Begin(0, {});
    var s1 := Step(false, s0, es[0]);
    var s2 := Step(false, s1, es[1]);
    var s3 := Step(false, s2, es[2]);
    assert s3.workers[0] == Holding(key, [0], 1);
    var s4 := Step(false, s3, es[3]);
    var s5 := Step(false, s4, es[4]);
    assert s5.workers[0] == Returned(key, [0]);
    hide Step;
    assert es[1..][1..] == es[2..] && es[2..][1..] == es[3..] && es[3..][1..] == es[4..] && es[4..][1..] == [];
    assert Run(false, s4, es[4..]) == Run(false, s5, []);
    assert Run(false, s2, es[2..]) == Run(false, s3, es[3..]) == Run(false, s4, es[4..]);
  }

  // ---------------------------------------------------------------- rows read back

  /** A stored link: its position in its allocation, which old rows lack, and its token. */
  datatype Row = Row(position: Option<nat>, uid: string)

  predicate ValidAt(rows: seq<Row>, i: nat)
    requires i < |rows|
  {
    rows[i].position == Some(i) && rows[i].uid != ""
  }

  /** The tokens of stored rows, or nothing when the rows are not a complete allocation. */
  method ShortLinkAllocationCodes(rows: seq<Row>, expected: nat) returns (r: Option<seq<string>>)
    ensures r.Some? <==> |rows| == expected && forall i :: 0 <= i < |rows| ==> ValidAt(rows, i)
    ensures r.Some? ==> |r.value| == expected && forall i :: 0 <= i < expected ==> r.value[i] == rows[i].uid
  {
    if |rows| != expected { return None; }
    var codes: seq<string> := [];
    for position := 0 to |rows|
      invariant |codes| == position
      invariant forall i :: 0 <= i < position ==> ValidAt(rows, i) && codes[i] == rows[i].uid
    {
      var row := rows[position];
      if row.position != Some(position) || row.uid == "" {
        assert !ValidAt(rows, position);
        return None;
      }
      codes := codes + [row.uid];
    }
    return Some(codes);
  }

  function UidSet(rows: seq<Row>): set<string> {
    set i | 0 <= i < |rows| :: rows[i].uid
  }

  /**
   Publishing rows: they are reloaded by token and uploaded. Nothing is acknowledged unless all of it is;
   without a service, or without rows, publishing succeeds and acknowledges nothing.
   */
  method PublishShortLinkMappings(configured: bool, links: seq<Row>, stored: set<string>, uploads: bool)
    returns (ok: bool, acknowledged: set<string>)
    ensures !configured || links == [] ==> ok && acknowledged == {}
    ensures configured && links != [] ==>
      (ok <==> (forall i :: 0 <= i < |links| ==> links[i].uid != "") && |stored * UidSet(links)| == |links| && uploads)
    ensures configured && links != [] && ok ==> acknowledged == UidSet(links) && acknowledged <= stored
    ensures !ok ==> acknowledged == {}
  {
    acknowledged := {};
    if !configured || |links| == 0 { return true, {}; }
    var uids: set<string> := {};
    for k := 0 to |links|
      invariant forall i :: 0 <= i < k ==> links[i].uid != ""
      invariant uids == UidSet(links[..k]) && |uids| <= k
    {
      if links[k].uid == "" { return false, {}; }
      UidSetGrows(links, k);
      uids := uids + {links[k].uid};
    }
    assert links[..|links|] == links;
    var persisted := stored * uids;
    if |persisted| != |links| { return false, {}; }
    if !uploads { return false, {}; }
    AllPersisted(persisted, uids, |links|);
    return true, persisted;
  }

  lemma {:induction false} UidSetGrows(links: seq<Row>, k: nat)
    requires k < |links|
    ensures UidSet(links[..k + 1]) == UidSet(links[..k]) + {links[k].uid}
    ensures |UidSet(links[..k]) + {links[k].uid}| <= |UidSet(links[..k])| + 1
  {
  }

  /** As many stored rows as tokens asked for: then they are the tokens asked for. */
  lemma {:induction false} AllPersisted(persisted: set<string>, uids: set<string>, n: nat)
    requires persisted <= uids && |uids| <= n == |persisted|
    ensures persisted == uids
  {
    var rest := uids - persisted;
    assert uids == persisted + rest;
    assert |uids| == |persisted| + |rest|;
  }

  /** The rows a worker inserts for the tokens it reserved. */
  method BuildRows(values: seq<nat>) returns (rows: seq<Row>)
    requires forall i :: 0 <= i < |values| ==> values[i] < CAPACITY
    ensures rows == RowsOf(values)
  {
    rows := [];
    for index := 0 to |values|
      invariant rows == RowsOf(values[..index])
    {
      rows := rows + [Row(Some(index), Uid(values[index]))];
    }
    assert values[..|values|] == values;
  }

  function RowsOf(values: seq<nat>): (rows: seq<Row>)
    requires forall i :: 0 <= i < |values| ==> values[i] < CAPACITY
    ensures |rows| == |values|
  {
    seq(|values|, i requires 0 <= i < |values| => Row(Some(i), Uid(values[i])))
  }

  /** What any interleaving commits is read back as a complete allocation: reuse never reports corruption. */
  lemma {:induction false} CommittedRowsAreComplete(published: bool, start: nat, legacy: set<string>, es: seq<Event>,
      a: Allocation)
    requires start <= CAPACITY && a in Run(published, Begin(start, legacy), es).allocations
    ensures forall i :: 0 <= i < |a.values| ==> a.values[i] < CAPACITY
    ensures |RowsOf(a.values)| == a.key.count && forall i :: 0 <= i < a.key.count ==> ValidAt(RowsOf(a.values), i)
  {
    hide Run;
    BeginKeepsInv(published, start, legacy);
    RunKeepsInv(published, Begin(start, legacy), start, legacy, es);
    var s := Run(published, Begin(start, legacy), es);
    var i :| 0 <= i < |s.allocations| && s.allocations[i] == a;
    assert |a.values| == a.key.count;
    forall k: nat | k < |a.values|
      ensures a.values[k] < CAPACITY
    {
      var at := FlattenHolds(s.allocations, i, k);
      assert Flatten(s.allocations)[at] in FreeIn(legacy, start, s.next);
    }
  }
}
