/**
 Verifying an administrator's one-time code while requests race. Each Redis command or MULTI block is
 one step; a request fetches the challenge and its time-to-live, increments the attempt counter and
 gives it the time-to-live read, checks the code, and consumes the challenge. Keys expire on their own.
 Times are milliseconds; the store answers for a time-to-live in whole seconds, rounded to the nearest.
 */
module AdminOtp {
  import opened Wrappers

  const MAX_ATTEMPTS: nat := 5

  /** A time-to-live as the store reports it. */
  function Rounded(remaining: nat): (ttl: nat)
    ensures ttl % 1000 == 0 && remaining < ttl + 500 && ttl <= remaining + 500
  {
    (remaining + 500) / 1000 * 1000
  }

  datatype Counter = Counter(count: nat, expiresAt: nat)

  /** The keys of one challenge: the challenge itself, by its expiry, and its attempt counter. */
  datatype Keys = Keys(challenge: Option<nat>, attempts: Option<Counter>)
  {
    predicate Alive(now: nat) { challenge.Some? && now < challenge.value }

    /** Alive, and with a time-to-live that does not read as zero. */
    predicate SeenAlive(now: nat) { Alive(now) && Rounded(challenge.value - now) > 0 }

    function Count(now: nat): nat {
      if attempts.Some? && now < attempts.value.expiresAt then attempts.value.count else 0
    }
  }

  const NO_KEYS := Keys(None, None)

  function Incremented(k: Keys, now: nat, ttl: nat): Keys {
    k.(attempts := Some(Counter(k.Count(now) + 1, now + ttl)))
  }

  // ---------------------------------------------------------------- one request on its own

  class Redis {
    var keys: Keys

    constructor (expiresAt: nat)
      ensures keys == Keys(Some(expiresAt), None)
    {
      keys := Keys(Some(expiresAt), None);
    }

    /** The store's answer for the challenge's time-to-live. */
    method GetChallenge(now: nat) returns (ttl: nat)
      ensures ttl == if keys.Alive(now) then Rounded(keys.challenge.value - now) else 0
    {
      if keys.challenge.None? || now >= keys.challenge.value { return 0; }
      return Rounded(keys.challenge.value - now);
    }

    method IncrementAttempts(now: nat, ttl: nat) returns (n: nat)
      modifies this
      ensures keys == Incremented(old(keys), now, ttl) && n == old(keys).Count(now) + 1
    {
      n := keys.Count(now) + 1;
      keys := keys.(attempts := Some(Counter(n, now + ttl)));
    }

    method Delete()
      modifies this
      ensures keys == NO_KEYS
    {
      keys := NO_KEYS;
    }

    method Consume(now: nat) returns (present: bool)
      modifies this
      ensures keys == NO_KEYS && present == old(keys).Alive(now)
    {
      present := keys.Alive(now);
      keys := NO_KEYS;
    }

    /**
     A request that nobody interrupts gets a session iff the challenge is seen alive, fewer than five
     attempts were counted, the code is right and the administrator is active. A challenge survives only a
     wrong code that still leaves attempts, and its attempt is then counted for the time read; or its last
     half second, in which it reads as gone.
     */
    method VerifyOtp(now: nat, correct: bool, adminActive: bool) returns (session: bool)
      modifies this
      ensures session <==> old(keys).SeenAlive(now) && old(keys).Count(now) < MAX_ATTEMPTS && correct && adminActive
      ensures !old(keys).SeenAlive(now) ==> keys == old(keys)
      ensures old(keys).SeenAlive(now) ==>
        (keys.Alive(now) <==> old(keys).Count(now) + 1 < MAX_ATTEMPTS && !correct)
      ensures old(keys).SeenAlive(now) && keys.Alive(now) ==>
        keys == Incremented(old(keys), now, Rounded(old(keys).challenge.value - now))
    {
      var ttl := GetChallenge(now);
      if ttl == 0 { return false; }
      var newAttempts := IncrementAttempts(now, ttl);
      if newAttempts > MAX_ATTEMPTS {
        Delete();
        return false;
      }
      if !correct {
        if newAttempts >= MAX_ATTEMPTS {
          Delete();
        }
        return false;
      }
      if !adminActive {
        Delete();
        return false;
      }
      session := Consume(now);
    }
  }

  // ---------------------------------------------------------------- racing requests

  /** How far a request has come. `rank` counts all increments of the challenge so far, this one included. */
  datatype Request =
    | Fetched(ttl: nat)
    | Counted(n: nat, rank: nat)
    | Verified(n: nat, rank: nat)

  datatype Session = Session(request: nat, rank: nat)

  datatype State = State(now: nat, keys: Keys, requests: map<nat, Request>, increments: nat, sessions: seq<Session>)

  datatype Event =
    | Tick(elapsed: nat)
    | Fetch(r: nat, ttl: nat)
    | Increment(r: nat)
    | Judge(r: nat, correct: bool)
    | RefuseAdmin(r: nat)
    | Consume(r: nat)
    | Withdraw

  function Put(s: State, r: nat, q: Request): State {
    s.(requests := s.requests[r := q])
  }

  function Gone(s: State, r: nat): State {
    s.(requests := s.requests - {r})
  }

  function Step(s: State, e: Event): (t: State) {
    match e
    case Tick(elapsed) => s.(now := s.now + elapsed)
    case Fetch(r, ttl) =>
      if r !in s.requests && s.keys.Alive(s.now) && ttl > 0 then Put(s, r, Fetched(ttl)) else s
    case Increment(r) =>
      if r in s.requests && s.requests[r].Fetched? then
        var n := s.keys.Count(s.now) + 1;
        Put(s.(keys := Incremented(s.keys, s.now, s.requests[r].ttl), increments := s.increments + 1),
            r, Counted(n, s.increments + 1))
      else s
    case Judge(r, correct) =>
      if r in s.requests && s.requests[r].Counted? then
        var q := s.requests[r];
        if q.n > MAX_ATTEMPTS then Gone(s.(keys := NO_KEYS), r)
        else if correct then Put(s, r, Verified(q.n, q.rank))
        else if q.n >= MAX_ATTEMPTS then Gone(s.(keys := NO_KEYS), r)
        else Gone(s, r)
      else s
    case RefuseAdmin(r) =>
      if r in s.requests && s.requests[r].Verified? then Gone(s.(keys := NO_KEYS), r) else s
    case Consume(r) =>
      if r in s.requests && s.requests[r].Verified? then
        var issued := s.keys.Alive(s.now);
        var s' := Gone(s.(keys := NO_KEYS), r);
        if issued then s'.(sessions := s.sessions + [Session(r, s.requests[r].rank)]) else s'
      else s
    case Withdraw => s.(keys := NO_KEYS)
  }

  function Run(s: State, es: seq<Event>): (t: State)
    decreases |es|
  {
    if es == [] then s else Run(Step(s, es[0]), es[1..])
  }

  function Begin(now: nat, expiresAt: nat): State {
    State(now, Keys(Some(expiresAt), None), map[], 0, [])
  }

  // ---------------------------------------------------------------- one session

  /** As long as the challenge lives, no session was issued, and there is never more than one. */
  predicate OneSession(s: State) {
    (s.keys.Alive(s.now) ==> s.sessions == []) && |s.sessions| <= 1
  }

  lemma {:induction false} StepKeepsOneSession(s: State, e: Event)
    requires OneSession(s)
    ensures OneSession(Step(s, e))
  {
  }

  lemma {:induction false} RunKeepsOneSession(s: State, es: seq<Event>)
    requires OneSession(s)
    ensures OneSession(Run(s, es))
    decreases |es|
  {
    hide Step, OneSession;
    if es != [] {
      StepKeepsOneSession(s, es[0]);
      RunKeepsOneSession(Step(s, es[0]), es[1..]);
    }
  }

  /** However requests race, expire and are deleted, and whatever they read, a challenge yields at most one session. */
  lemma {:induction false} AtMostOneSession(now: nat, expiresAt: nat, es: seq<Event>)
    ensures |Run(Begin(now, expiresAt), es).sessions| <= 1
  {
    RunKeepsOneSession(Begin(now, expiresAt), es);
    hide Run;
  }

  // ---------------------------------------------------------------- only to one of the first five

  /** Every session went to a request whose increment was among the first five of the challenge. */
  predicate FirstFive(s: State) {
    forall i :: 0 <= i < |s.sessions| ==> 1 <= s.sessions[i].rank <= MAX_ATTEMPTS
  }

  /** A request that reads a time-to-live reads no less than the challenge has left. */
  predicate Covers(s: State, e: Event) {
    e.Fetch? && s.keys.Alive(s.now) && e.ttl > 0 ==> s.now + e.ttl >= s.keys.challenge.value
  }

  predicate AllCover(s: State, es: seq<Event>)
    decreases |es|
  {
    es == [] || (Covers(s, es[0]) && AllCover(Step(s, es[0]), es[1..]))
  }

  predicate RequestFits(s: State, q: Request, expiresAt: nat) {
    match q
    case Fetched(ttl) => s.now + ttl >= expiresAt
    case Counted(n, rank) => rank >= 1 && (s.keys.Alive(s.now) ==> n == rank)
    case Verified(n, rank) => rank >= 1 && n <= MAX_ATTEMPTS && (s.keys.Alive(s.now) ==> n == rank)
  }

  /** While the challenge lives its counter has seen every increment, and outlives the challenge. */
  ghost predicate Inv(s: State, expiresAt: nat) {
    && (s.keys.challenge.Some? ==> s.keys.challenge.value == expiresAt)
    && (s.keys.Alive(s.now) ==>
          && (s.keys.attempts.None? ==> s.increments == 0)
          && (s.keys.attempts.Some? ==>
            s.keys.attempts.value.expiresAt >= expiresAt && s.keys.attempts.value.count == s.increments))
    && FirstFive(s)
    && (forall r :: r in s.requests ==> RequestFits(s, s.requests[r], expiresAt))
  }

  lemma {:induction false} StepKeepsInv(s: State, expiresAt: nat, e: Event)
    requires Inv(s, expiresAt) && Covers(s, e)
    ensures Inv(Step(s, e), expiresAt)
  {
    var t := Step(s, e);
    forall r | r in t.requests
      ensures RequestFits(t, t.requests[r], expiresAt)
    {
      assert r in s.requests ==> RequestFits(s, s.requests[r], expiresAt);
    }
  }

  lemma {:induction false} RunKeepsInv(s: State, expiresAt: nat, es: seq<Event>)
    requires Inv(s, expiresAt) && AllCover(s, es)
    ensures Inv(Run(s, es), expiresAt)
    decreases |es|
  {
    if es != [] {
      StepKeepsInv(s, expiresAt, es[0]);
      hide Step, Inv, Covers;
      RunKeepsInv(Step(s, es[0]), expiresAt, es[1..]);
    }
  }

  /**
   If every time-to-live read covers what the challenge has left, a session goes only to one of the first
   five increments, although deletion resets the counter.
   */
  lemma {:induction false} CoveringReadsGiveFirstFive(now: nat, expiresAt: nat, es: seq<Event>)
    requires AllCover(Begin(now, expiresAt), es)
    ensures FirstFive(Run(Begin(now, expiresAt), es))
  {
    assert Inv(Begin(now, expiresAt), expiresAt);
    RunKeepsInv(Begin(now, expiresAt), expiresAt, es);
    hide Run;
  }

  /** What a store answers, as a function of what is really left. */
  type Reading = nat -> nat

  /** Every request reads what such a store answers. */
  predicate Reads(read: Reading, s: State, es: seq<Event>)
    decreases |es|
  {
    es == [] || (
      && (es[0].Fetch? && s.keys.Alive(s.now) ==> es[0].ttl == read(s.keys.challenge.value - s.now))
      && Reads(read, Step(s, es[0]), es[1..]))
  }

  /** An answer that covers what is left, or makes the challenge read as gone. */
  predicate Safe(read: Reading, remaining: nat) {
    read(remaining) == 0 || read(remaining) >= remaining
  }

  lemma {:induction false} SafeReadsCover(read: Reading, s: State, expiresAt: nat, life: nat, es: seq<Event>)
    requires Reads(read, s, es) && forall left :: 0 < left <= life ==> Safe(read, left)
    requires s.keys.challenge.Some? ==> s.keys.challenge.value == expiresAt <= s.now + life
    ensures AllCover(s, es)
    decreases |es|
  {
    if es != [] {
      var t := Step(s, es[0]);
      assert t.keys.challenge.Some? ==> t.keys.challenge.value == expiresAt <= t.now + life;
      assert es[0].Fetch? && s.keys.Alive(s.now) ==> Safe(read, s.keys.challenge.value - s.now);
      hide Step, Safe;
      SafeReadsCover(read, t, expiresAt, life, es[1..]);
    }
  }

  lemma {:induction false} RunInParts(read: Reading, s: State, a: seq<Event>, b: seq<Event>)
    ensures Run(s, a + b) == Run(Run(s, a), b)
    ensures Reads(read, s, a + b) <==> Reads(read, s, a) && Reads(read, Run(s, a), b)
    decreases |a|
  {
    hide Step;
    if a == [] {
      assert a + b == b;
    } else {
      assert (a + b)[0] == a[0] && (a + b)[1..] == a[1..] + b;
      RunInParts(read, Step(s, a[0]), a[1..], b);
    }
  }

  lemma {:induction false} RunOne(read: Reading, s: State, e: Event)
    ensures Run(s, [e]) == Step(s, e)
    ensures Reads(read, s, [e]) <==>
      (e.Fetch? && s.keys.Alive(s.now) ==> e.ttl == read(s.keys.challenge.value - s.now))
  {
    hide Step;
    assert [e][1..] == [];
  }

  function Fetches(n: nat, ttl: nat): (es: seq<Event>)
    ensures |es| == n
  {
    seq(n, (r: nat) => Fetch(r, ttl))
  }

  function Increments(n: nat): (es: seq<Event>)
    ensures |es| == n
  {
    seq(n, (r: nat) => Increment(r))
  }

  lemma {:induction false} FetchesAreFetched(read: Reading, s: State, n: nat, ttl: nat)
    requires s.requests == map[] && s.keys.Alive(s.now) && ttl > 0 && read(s.keys.challenge.value - s.now) == ttl
    ensures Reads(read, s, Fetches(n, ttl))
    ensures
      var t := Run(s, Fetches(n, ttl));
      && t == s.(requests := t.requests)
      && (forall r: nat :: r in t.requests <==> r < n) && forall r: nat :: r < n ==> t.requests[r] == Fetched(ttl)
  {
    if n > 0 {
      FetchesAreFetched(read, s, n - 1, ttl);
      assert Fetches(n, ttl) == Fetches(n - 1, ttl) + [Fetch(n - 1, ttl)];
      RunInParts(read, s, Fetches(n - 1, ttl), [Fetch(n - 1, ttl)]);
      RunOne(read, Run(s, Fetches(n - 1, ttl)), Fetch(n - 1, ttl));
    }
  }

  lemma {:induction false} IncrementsAreCounted(read: Reading, s: State, n: nat, all: nat, ttl: nat)
    requires n <= all && s.keys.attempts.None?
    requires (forall r: nat :: r < all ==> r in s.requests && s.requests[r] == Fetched(ttl))
    ensures Reads(read, s, Increments(n))
    ensures
      var t := Run(s, Increments(n));
      && t == s.(requests := t.requests, keys := t.keys, increments := s.increments + n)
      && t.keys.challenge == s.keys.challenge
      && (t.keys.attempts.Some? ==> t.keys.attempts.value.expiresAt == s.now + ttl)
      && forall r: nat :: n <= r < all ==> r in t.requests && t.requests[r] == Fetched(ttl)
  {
    if n > 0 {
      IncrementsAreCounted(read, s, n - 1, all, ttl);
      assert Increments(n) == Increments(n - 1) + [Increment(n - 1)];
      RunInParts(read, s, Increments(n - 1), [Increment(n - 1)]);
      RunOne(read, Run(s, Increments(n - 1)), Increment(n - 1));
    }
  }

  /** Six requests fetch, five are counted, the counter lapses, and the sixth is counted as a first one. */
  function Overtaking(wait: nat, ttl: nat): seq<Event> {
    [Tick(wait)] + (Fetches(6, ttl) + (Increments(5) + Sixth(ttl)))
  }

  function Sixth(ttl: nat): seq<Event> {
    [Tick(ttl)] + ([Increment(5)] + ([Judge(5, true)] + [Consume(5)]))
  }

  lemma {:induction false} SixthGetsIn(read: Reading, s: State, ttl: nat)
    requires s.sessions == [] && s.increments == 5 && s.keys.Alive(s.now) && s.now + ttl < s.keys.challenge.value
    requires s.keys.attempts.Some? ==> s.keys.attempts.value.expiresAt == s.now + ttl
    requires 5 in s.requests && s.requests[5] == Fetched(ttl)
    ensures Run(s, Sixth(ttl)).sessions == [Session(5, 6)] && Reads(read, s, Sixth(ttl))
  {
    RunInParts(read, s, [Tick(ttl)], [Increment(5)] + ([Judge(5, true)] + [Consume(5)]));
    RunOne(read, s, Tick(ttl));
    var a := Step(s, Tick(ttl));
    RunInParts(read, a, [Increment(5)], [Judge(5, true)] + [Consume(5)]);
    RunOne(read, a, Increment(5));
    var b := Step(a, Increment(5));
    assert b.requests[5] == Counted(1, 6) && b.keys.Alive(b.now);
    RunInParts(read, b, [Judge(5, true)], [Consume(5)]);
    RunOne(read, b, Judge(5, true));
    var c := Step(b, Judge(5, true));
    RunOne(read, c, Consume(5));
    hide Run, Reads;
  }

  /** An answer that falls short of what is left lets a sixth attempt through. */
  lemma {:induction false} ShortReadAdmitsTheSixth(read: Reading, now: nat, expiresAt: nat, left: nat)
    requires now + left <= expiresAt && left > 0 && !Safe(read, left)
    ensures
      var es := Overtaking(expiresAt - now - left, read(left));
      Reads(read, Begin(now, expiresAt), es) && !FirstFive(Run(Begin(now, expiresAt), es))
  {
    hide Run, Reads, Fetches, Increments, Sixth;
    var wait, ttl := expiresAt - now - left, read(left);
    var s := Begin(now, expiresAt);
    RunInParts(read, s, [Tick(wait)], Fetches(6, ttl) + (Increments(5) + Sixth(ttl)));
    RunOne(read, s, Tick(wait));
    var a := s.(now := now + wait);
    RunInParts(read, a, Fetches(6, ttl), Increments(5) + Sixth(ttl));
    FetchesAreFetched(read, a, 6, ttl);
    var b := Run(a, Fetches(6, ttl));
    RunInParts(read, b, Increments(5), Sixth(ttl));
    IncrementsAreCounted(read, b, 5, 6, ttl);
    var c := Run(b, Increments(5));
    SixthGetsIn(read, c, ttl);
    var t := Run(c, Sixth(ttl));
    assert t.sessions[0].rank == 6;
  }

  /**
   With a given store, sessions go only to the first five increments in every run exactly when no answer
   that it gives during a challenge's life falls short of what is left.
   */
  lemma {:induction false} FirstFiveIff(read: Reading, now: nat, expiresAt: nat)
    requires now <= expiresAt
    ensures
      (forall es :: Reads(read, Begin(now, expiresAt), es) ==> FirstFive(Run(Begin(now, expiresAt), es))) <==>
      (forall left :: 0 < left <= expiresAt - now ==> Safe(read, left))
  {
    hide Run, Reads, Safe, FirstFive, Overtaking;
    if forall left :: 0 < left <= expiresAt - now ==> Safe(read, left) {
      forall es | Reads(read, Begin(now, expiresAt), es)
        ensures FirstFive(Run(Begin(now, expiresAt), es))
      {
        SafeReadsCover(read, Begin(now, expiresAt), expiresAt, expiresAt - now, es);
        CoveringReadsGiveFirstFive(now, expiresAt, es);
      }
    } else {
      var left :| 0 < left <= expiresAt - now && !Safe(read, left);
      ShortReadAdmitsTheSixth(read, now, expiresAt, left);
      assert !FirstFive(Run(Begin(now, expiresAt), Overtaking(expiresAt - now - left, read(left))));
    }
  }

  /** The program's store rounds, and falls short in the first half of every second that is not the last. */
  lemma {:induction false} RoundedFallsShortIff(left: nat)
    ensures Safe(Rounded, left) <==> left < 500 || left % 1000 == 0 || left % 1000 >= 500
  {
  }

  /** So a challenge that lives for more than a second can give its session to a sixth attempt. */
  lemma {:induction false} RoundingAdmitsTheSixth(now: nat, expiresAt: nat)
    requires now + 1001 <= expiresAt
    ensures exists es :: Reads(Rounded, Begin(now, expiresAt), es) && !FirstFive(Run(Begin(now, expiresAt), es))
  {
    hide Run, Reads, FirstFive, Overtaking;
    RoundedFallsShortIff(1001);
    FirstFiveIff(Rounded, now, expiresAt);
  }
  /** A request that fetched the challenge before it was deleted is counted from one again, and gets nothing. */
  lemma {:induction false} DeletionResetsTheCounter(now: nat, expiresAt: nat)
    requires now < expiresAt
    ensures
      var s := Begin(now, expiresAt);
      var t := Step(Step(Step(s, Fetch(0, expiresAt - now)), Withdraw), Increment(0));
      t.requests[0] == Counted(1, 1) && Step(Step(t, Judge(0, true)), Consume(0)).sessions == []
  {
  }

  /** The events of a request that nobody interrupts. */
  function Alone(r: nat, ttl: nat, correct: bool, adminActive: bool): seq<Event> {
    [Fetch(r, ttl), Increment(r), Judge(r, correct), if adminActive then Consume(r) else RefuseAdmin(r)]
  }

  lemma {:induction false} RunFour(s: State, e0: Event, e1: Event, e2: Event, e3: Event)
    ensures Run(s, [e0, e1, e2, e3]) == Step(Step(Step(Step(s, e0), e1), e2), e3)
  {
    hide Step;
    var es := [e0, e1, e2, e3];
    var a := Step(s, e0);
    var b := Step(a, e1);
    var c := Step(b, e2);
    assert es[1..] == [e1, e2, e3];
    assert [e1, e2, e3][1..] == [e2, e3];
    assert [e2, e3][1..] == [e3];
    assert [e3][1..] == [];
    assert Run(c, [e3]) == Step(c, e3);
    assert Run(b, [e2, e3]) == Run(c, [e3]);
    assert Run(a, [e1, e2, e3]) == Run(b, [e2, e3]);
  }

  /**
   Uninterrupted, a request of the state machine comes out as Redis.VerifyOtp says: a session iff the
   challenge is seen alive, fewer than five attempts were counted, the code is right and the administrator
   active; and the challenge survives a wrong code that leaves attempts, with the attempt counted for the
   time read.
   */
  lemma {:induction false} AloneIsVerifyOtp(s: State, r: nat, correct: bool, adminActive: bool)
    requires r !in s.requests
    ensures
      var ttl := if s.keys.Alive(s.now) then Rounded(s.keys.challenge.value - s.now) else 0;
      var t := Run(s, Alone(r, ttl, correct, adminActive));
      var left := s.keys.Count(s.now) < MAX_ATTEMPTS;
      && t.now == s.now && t.requests == s.requests
      && t.sessions == s.sessions + (
           if s.keys.SeenAlive(s.now) && left && correct && adminActive then [Session(r, s.increments + 1)] else [])
      && (!s.keys.SeenAlive(s.now) ==> t.keys == s.keys)
      && (s.keys.SeenAlive(s.now) ==>
           (t.keys.Alive(t.now) <==> s.keys.Count(s.now) + 1 < MAX_ATTEMPTS && !correct))
      && (s.keys.SeenAlive(s.now) && t.keys.Alive(t.now) ==> t.keys == Incremented(s.keys, s.now, ttl))
  {
    var ttl := if s.keys.Alive(s.now) then Rounded(s.keys.challenge.value - s.now) else 0;
    RunFour(s, Fetch(r, ttl), Increment(r), Judge(r, correct), if adminActive then Consume(r) else RefuseAdmin(r));
    hide Run, Rounded;
    if s.keys.SeenAlive(s.now) {
      SeenAlone(s, r, ttl, correct, adminActive);
    } else {
      UnseenAlone(s, r, ttl, correct, adminActive);
    }
  }

  /** What reads as gone is not touched. */
  lemma {:induction false} UnseenAlone(s: State, r: nat, ttl: nat, correct: bool, adminActive: bool)
    requires r !in s.requests && (!s.keys.Alive(s.now) || ttl == 0)
    ensures
      var last := if adminActive then Consume(r) else RefuseAdmin(r);
      Step(Step(Step(Step(s, Fetch(r, ttl)), Increment(r)), Judge(r, correct)), last) == s
  {
  }

  lemma {:induction false} SeenAlone(s: State, r: nat, ttl: nat, correct: bool, adminActive: bool)
    requires r !in s.requests && s.keys.Alive(s.now) && ttl > 0
    ensures
      var last := if adminActive then Consume(r) else RefuseAdmin(r);
      var t := Step(Step(Step(Step(s, Fetch(r, ttl)), Increment(r)), Judge(r, correct)), last);
      var left := s.keys.Count(s.now) < MAX_ATTEMPTS;
      && t.now == s.now && t.requests == s.requests
      && t.sessions == s.sessions + (if left && correct && adminActive then [Session(r, s.increments + 1)] else [])
      && (t.keys.Alive(t.now) <==> s.keys.Count(s.now) + 1 < MAX_ATTEMPTS && !correct)
      && (t.keys.Alive(t.now) ==> t.keys == Incremented(s.keys, s.now, ttl))
  {
    var n := s.keys.Count(s.now) + 1;
    var keys := Incremented(s.keys, s.now, ttl);
    var b := Step(Step(s, Fetch(r, ttl)), Increment(r));
    assert b == State(s.now, keys, s.requests[r := Counted(n, s.increments + 1)], s.increments + 1, s.sessions);
    assert b.requests - {r} == s.requests && s.requests[r := Verified(n, s.increments + 1)] - {r} == s.requests;
    if n <= MAX_ATTEMPTS && correct {
      assert Step(b, Judge(r, correct)) == b.(requests := s.requests[r := Verified(n, s.increments + 1)]);
    } else {
      assert Step(b, Judge(r, correct)).requests == s.requests;
    }
  }

  /** Once the challenge is gone, no continuation issues another session. */
  lemma {:induction false} GoneForGood(s: State, es: seq<Event>)
    requires !s.keys.Alive(s.now)
    ensures !Run(s, es).keys.Alive(Run(s, es).now) && Run(s, es).sessions == s.sessions
    decreases |es|
  {
    if es != [] {
      var t := Step(s, es[0]);
      assert !t.keys.Alive(t.now) && t.sessions == s.sessions;
      hide Step;
      GoneForGood(t, es[1..]);
    }
  }
}
