/**
 Queuing tag evaluations. A request takes its timestamp before it waits for the customer's and the
 bundle's row locks; under both it looks at the bundle's latest run, counts the customer's runs of the
 day, and inserts. A decision under the locks is one step; requests interleave between stamp and decision.
 */
module EvaluationQueue {
  import opened Wrappers

  const DAY: nat := 86_400_000_000_000

  /** A run's id is its position. Active: its latest event is neither completion nor failure. */
  datatype Run = Run(bundle: nat, customer: nat, createdAt: nat, active: bool)

  datatype Request = Request(bundle: nat, customer: nat, now: nat)

  datatype State = State(runs: seq<Run>, requests: map<nat, Request>)

  datatype Event =
    | Stamp(r: nat, bundle: nat, customer: nat, now: nat)
    | Decide(r: nat)
    | Finish(id: nat)

  /** The bundle's latest run: newest timestamp, then highest id. */
  function LatestRun(runs: seq<Run>, bundle: nat): (id: Option<nat>)
    ensures id.None? <==> forall i :: 0 <= i < |runs| ==> runs[i].bundle != bundle
    ensures id.Some? ==> id.value < |runs| && runs[id.value].bundle == bundle
    ensures id.Some? ==> forall i :: 0 <= i < |runs| && runs[i].bundle == bundle ==> Newer(runs, id.value, i)
    ensures id.Some? ==>
      forall i :: 0 <= i < |runs| && Newer(runs, i, id.value) ==> runs[i].bundle != bundle || i == id.value
  {
    if runs == [] then None
    else
      var n := |runs| - 1;
      var before := LatestRun(runs[..n], bundle);
      if runs[n].bundle != bundle then before
      else if before.None? || runs[n].createdAt >= runs[before.value].createdAt then Some(n)
      else before
  }

  predicate Newer(runs: seq<Run>, i: nat, j: nat)
    requires i < |runs| && j < |runs|
  {
    runs[i].createdAt > runs[j].createdAt || (runs[i].createdAt == runs[j].createdAt && i >= j)
  }

  function DayOf(t: nat): nat {
    t / DAY
  }

  /** Bounds of the UTC day containing a time. */
  function DayBounds(now: nat): (bounds: (nat, nat))
    ensures bounds.0 <= now < bounds.1 && bounds.1 - bounds.0 == 86_400_000_000_000
  {
    var start := DayOf(now) * DAY;
    (start, start + DAY)
  }

  /** A time lies within the bounds exactly when it is of the same day. */
  lemma {:induction false} BoundsAreTheDay(now: nat, t: nat)
    ensures DayBounds(now).0 <= t < DayBounds(now).1 <==> DayOf(t) == DayOf(now)
  {
  }

  /** The customer's runs stamped from a start to before an end. */
  ghost function Between(runs: seq<Run>, customer: nat, start: nat, end: nat): set<nat> {
    set id: nat | id < |runs| && runs[id].customer == customer && start <= runs[id].createdAt < end
  }

  function CountBetween(runs: seq<Run>, customer: nat, start: nat, end: nat): (n: nat)
    ensures n == |Between(runs, customer, start, end)|
  {
    if runs == [] then 0
    else
      assert Between(runs, customer, start, end) == Between(runs[..|runs| - 1], customer, start, end) +
        if runs[|runs| - 1].customer == customer && start <= runs[|runs| - 1].createdAt < end then {|runs| - 1} else {};
      var last := runs[|runs| - 1];
      CountBetween(runs[..|runs| - 1], customer, start, end) +
        if last.customer == customer && start <= last.createdAt < end then 1 else 0
  }

  predicate Evaluating(runs: seq<Run>, bundle: nat) {
    var latest := LatestRun(runs, bundle);
    latest.Some? && runs[latest.value].active
  }

  predicate Accepts(runs: seq<Run>, q: Request, dailyLimit: int) {
    !Evaluating(runs, q.bundle) && CountBetween(runs, q.customer, DayBounds(q.now).0, DayBounds(q.now).1) < dailyLimit
  }

  function Step(dailyLimit: int, s: State, e: Event): (r: State) {
    match e
    case Stamp(r, bundle, customer, now) =>
      if r in s.requests || Evaluating(s.runs, bundle) then s
      else s.(requests := s.requests[r := Request(bundle, customer, now)])
    case Decide(r) =>
      if r !in s.requests then s
      else
        var q := s.requests[r];
        var rest := s.requests - {r};
        if Accepts(s.runs, q, dailyLimit) then State(s.runs + [Run(q.bundle, q.customer, q.now, true)], rest)
        else s.(requests := rest)
    case Finish(id) =>
      if id < |s.runs| then s.(runs := s.runs[id := s.runs[id].(active := false)]) else s
  }

  function Trace(dailyLimit: int, s: State, es: seq<Event>): (r: State)
    decreases |es|
  {
    if es == [] then s else Trace(dailyLimit, Step(dailyLimit, s, es[0]), es[1..])
  }

  const IDLE := State([], map[])

  // ---------------------------------------------------------------- the daily limit

  /** How many runs of a customer are stamped with times of one day. */
  function RunsOnDay(runs: seq<Run>, customer: nat, day: nat): (n: nat)
    ensures n == |OnDay(runs, customer, day)|
  {
    assert Between(runs, customer, day * DAY, day * DAY + DAY) == OnDay(runs, customer, day);
    CountBetween(runs, customer, day * DAY, day * DAY + DAY)
  }

  ghost function OnDay(runs: seq<Run>, customer: nat, day: nat): set<nat> {
    set id: nat | id < |runs| && runs[id].customer == customer && DayOf(runs[id].createdAt) == day
  }

  ghost predicate WithinLimit(runs: seq<Run>, dailyLimit: int) {
    forall customer: nat, day: nat :: RunsOnDay(runs, customer, day) <= if dailyLimit > 0 then dailyLimit else 0
  }

  lemma {:induction false} FinishKeepsCounts(runs: seq<Run>, id: nat, customer: nat, start: nat, end: nat)
    requires id < |runs|
    ensures CountBetween(runs[id := runs[id].(active := false)], customer, start, end) ==
      CountBetween(runs, customer, start, end)
  {
    var after := runs[id := runs[id].(active := false)];
    var n := |runs| - 1;
    if id < n {
      assert after[..n] == runs[..n][id := runs[id].(active := false)];
      FinishKeepsCounts(runs[..n], id, customer, start, end);
    } else {
      assert after[..n] == runs[..n];
    }
  }

  lemma {:induction false} StepKeepsLimit(dailyLimit: int, s: State, e: Event)
    requires WithinLimit(s.runs, dailyLimit)
    ensures WithinLimit(Step(dailyLimit, s, e).runs, dailyLimit)
  {
    var runs := Step(dailyLimit, s, e).runs;
    forall customer: nat, day: nat
      ensures RunsOnDay(runs, customer, day) <= if dailyLimit > 0 then dailyLimit else 0
    {
      assert RunsOnDay(s.runs, customer, day) <= if dailyLimit > 0 then dailyLimit else 0;
      if e.Finish? && e.id < |s.runs| {
        FinishKeepsCounts(s.runs, e.id, customer, day * DAY, day * DAY + DAY);
      } else if runs != s.runs {
        var q := s.requests[e.r];
        assert runs[..|s.runs|] == s.runs;
        hide LatestRun;
        if q.customer == customer && day * DAY <= q.now < day * DAY + DAY {
          DayIs(q.now, day);
        }
      }
    }
  }

  lemma {:induction false} DayIs(t: nat, day: nat)
    requires day * DAY <= t < day * DAY + DAY
    ensures DayBounds(t) == (day * DAY, day * DAY + DAY)
  {
  }

  /** However requests interleave, no customer gets more runs stamped within one UTC day than the limit. */
  lemma {:induction false} DailyLimitHolds(dailyLimit: int, s: State, es: seq<Event>)
    requires WithinLimit(s.runs, dailyLimit)
    ensures WithinLimit(Trace(dailyLimit, s, es).runs, dailyLimit)
    decreases |es|
  {
    hide Step, WithinLimit;
    if es != [] {
      StepKeepsLimit(dailyLimit, s, es[0]);
      DailyLimitHolds(dailyLimit, Step(dailyLimit, s, es[0]), es[1..]);
    }
  }

  lemma {:induction false} IdleIsWithinLimit(dailyLimit: int)
    ensures WithinLimit(IDLE.runs, dailyLimit)
  {
  }

  /** So from an empty queue no day of any customer exceeds the limit. */
  lemma {:induction false} NoDayExceedsTheLimit(dailyLimit: int, es: seq<Event>, customer: nat, day: nat)
    ensures RunsOnDay(Trace(dailyLimit, IDLE, es).runs, customer, day) <= if dailyLimit > 0 then dailyLimit else 0
  {
    hide Trace, RunsOnDay;
    IdleIsWithinLimit(dailyLimit);
    DailyLimitHolds(dailyLimit, IDLE, es);
  }

  // ---------------------------------------------------------------- one request

  /** A request keeps the stamp it took through any run in which it is not decided. */
  lemma {:induction false} StampIsKept(dailyLimit: int, s: State, es: seq<Event>, r: nat)
    requires r in s.requests && Decide(r) !in es
    ensures
      var t := Trace(dailyLimit, s, es);
      r in t.requests && t.requests[r] == s.requests[r]
    decreases |es|
  {
    if es != [] {
      assert es[0] in es && forall e :: e in es[1..] ==> e in es;
      assert r in Step(dailyLimit, s, es[0]).requests && Step(dailyLimit, s, es[0]).requests[r] == s.requests[r];
      hide Step;
      StampIsKept(dailyLimit, Step(dailyLimit, s, es[0]), es[1..], r);
    }
  }

  /** Some request took this stamp. */
  predicate Stamped(es: seq<Event>, bundle: nat, customer: nat, now: nat) {
    exists k :: 0 <= k < |es| && es[k].Stamp? && es[k] == Stamp(es[k].r, bundle, customer, now)
  }

  /** Requests and runs carry stamps that were taken. */
  predicate CarryStamps(s: State, es: seq<Event>) {
    && (forall r :: r in s.requests ==> Stamped(es, s.requests[r].bundle, s.requests[r].customer, s.requests[r].now))
    && (forall i :: 0 <= i < |s.runs| ==> Stamped(es, s.runs[i].bundle, s.runs[i].customer, s.runs[i].createdAt))
  }

  lemma {:induction false} StampedLater(es: seq<Event>, e: Event, bundle: nat, customer: nat, now: nat)
    requires Stamped(es, bundle, customer, now) || (e.Stamp? && e == Stamp(e.r, bundle, customer, now))
    ensures Stamped(es + [e], bundle, customer, now)
  {
    if Stamped(es, bundle, customer, now) {
      var k :| 0 <= k < |es| && es[k].Stamp? && es[k] == Stamp(es[k].r, bundle, customer, now);
      assert (es + [e])[k] == es[k];
    } else {
      assert (es + [e])[|es|] == e;
    }
  }

  /** In any interleaving every run of the queue carries the stamp that a request took, of its customer and bundle. */
  lemma {:induction false} RunsCarryTheirStamp(dailyLimit: int, es: seq<Event>)
    ensures CarryStamps(Trace(dailyLimit, IDLE, es), es)
    decreases |es|
  {
    if es != [] {
      var before, e := es[..|es| - 1], es[|es| - 1];
      assert es == before + [e];
      RunsCarryTheirStamp(dailyLimit, before);
      TraceSnoc(dailyLimit, IDLE, before, e);
      var s := Trace(dailyLimit, IDLE, before);
      var t := Step(dailyLimit, s, e);
      hide Trace, Stamped, Accepts, Evaluating;
      forall r | r in t.requests
        ensures Stamped(es, t.requests[r].bundle, t.requests[r].customer, t.requests[r].now)
      {
        StampedLater(before, e, t.requests[r].bundle, t.requests[r].customer, t.requests[r].now);
      }
      forall i | 0 <= i < |t.runs|
        ensures Stamped(es, t.runs[i].bundle, t.runs[i].customer, t.runs[i].createdAt)
      {
        StampedLater(before, e, t.runs[i].bundle, t.runs[i].customer, t.runs[i].createdAt);
      }
    }
  }

  /**
   A request that nobody interrupts creates its run, stamped now and active, iff the bundle's latest run is
   not evaluating and the customer has fewer runs stamped on this day than the limit.
   */
  lemma {:induction false} AloneCreatesIff(dailyLimit: int, s: State, r: nat, bundle: nat, customer: nat, now: nat)
    requires r !in s.requests
    ensures
      var t := Step(dailyLimit, Step(dailyLimit, s, Stamp(r, bundle, customer, now)), Decide(r));
      var today := OnDay(s.runs, customer, DayOf(now));
      var latest := LatestRun(s.runs, bundle);
      && t.requests == s.requests
      && t.runs == s.runs + (
           if (latest.Some? ==> !s.runs[latest.value].active) && |today| < dailyLimit
           then [Run(bundle, customer, now, true)] else [])
  {
    var bounds := DayBounds(now);
    assert Between(s.runs, customer, bounds.0, bounds.1) == OnDay(s.runs, customer, DayOf(now));
    var q := Request(bundle, customer, now);
    assert s.requests[r := q] - {r} == s.requests;
    hide LatestRun, CountBetween;
  }

  /** A request takes a stamp, and waits for the locks, iff the latest run is not evaluating when it arrives. */
  lemma {:induction false} TakesAStampIff(
      dailyLimit: int, s: State, r: nat, bundle: nat, customer: nat, now: nat)
    requires r !in s.requests
    ensures
      var t := Step(dailyLimit, s, Stamp(r, bundle, customer, now));
      var latest := LatestRun(s.runs, bundle);
      if latest.Some? && s.runs[latest.value].active then t == s
      else t == s.(requests := s.requests[r := Request(bundle, customer, now)])
  {
    hide LatestRun;
  }

  // ---------------------------------------------------------------- one active run per bundle

  lemma {:induction false} InsertsOnlyWhenIdle(dailyLimit: int, s: State, e: Event)
    requires |Step(dailyLimit, s, e).runs| > |s.runs|
    ensures e.Decide? && Step(dailyLimit, s, e).runs[..|s.runs|] == s.runs
    ensures !Evaluating(s.runs, Step(dailyLimit, s, e).runs[|s.runs|].bundle)
  {
  }

  lemma {:induction false} RunsStayPut(dailyLimit: int, s: State, e: Event, i: nat)
    requires i < |s.runs|
    ensures
      var r := Step(dailyLimit, s, e);
      && |s.runs| <= |r.runs| <= |s.runs| + 1 && r.runs[i] == s.runs[i].(active := r.runs[i].active)
  {
  }

  lemma {:induction false} TraceSnoc(dailyLimit: int, s: State, es: seq<Event>, e: Event)
    ensures Trace(dailyLimit, s, es + [e]) == Step(dailyLimit, Trace(dailyLimit, s, es), e)
    decreases |es|
  {
    hide Step;
    if es == [] {
      assert [] + [e] == [e] && [e][1..] == [];
    } else {
      assert (es + [e])[0] == es[0] && (es + [e])[1..] == es[1..] + [e];
      TraceSnoc(dailyLimit, Step(dailyLimit, s, es[0]), es[1..], e);
    }
  }

  /** At this moment of the history run `i` is inserted, and its bundle is not evaluating. */
  predicate InsertedWhenIdle(dailyLimit: int, es: seq<Event>, k: nat, i: nat, bundle: nat)
    requires k < |es|
  {
    && es[k].Decide? && |Trace(dailyLimit, IDLE, es[..k]).runs| == i
    && !Evaluating(Trace(dailyLimit, IDLE, es[..k]).runs, bundle)
  }

  /** In any interleaving every run was inserted at a moment when its bundle's latest run was not evaluating. */
  lemma {:induction false} NoRunWhileLatestEvaluates(dailyLimit: int, es: seq<Event>, i: nat)
    requires i < |Trace(dailyLimit, IDLE, es).runs|
    ensures
      var bundle := Trace(dailyLimit, IDLE, es).runs[i].bundle;
      exists k :: 0 <= k < |es| && InsertedWhenIdle(dailyLimit, es, k, i, bundle)
    decreases |es|
  {
    hide Step, Evaluating;
    if es != [] {
      var before, e := es[..|es| - 1], es[|es| - 1];
      assert es == before + [e];
      TraceSnoc(dailyLimit, IDLE, before, e);
      var s := Trace(dailyLimit, IDLE, before);
      if i < |s.runs| {
        NoRunWhileLatestEvaluates(dailyLimit, before, i);
        RunsStayPut(dailyLimit, s, e, i);
        hide Trace;
        var bundle := s.runs[i].bundle;
        var k :| 0 <= k < |before| && InsertedWhenIdle(dailyLimit, before, k, i, bundle);
        assert before[..k] == es[..k] && before[k] == es[k];
        assert InsertedWhenIdle(dailyLimit, es, k, i, bundle);
      } else {
        if |s.runs| > 0 { RunsStayPut(dailyLimit, s, e, 0); } else { FirstRun(dailyLimit, s, e); }
        InsertsOnlyWhenIdle(dailyLimit, s, e);
        hide Trace;
        assert es[..|es| - 1] == before;
        assert InsertedWhenIdle(dailyLimit, es, |es| - 1, i, Step(dailyLimit, s, e).runs[i].bundle);
      }
    }
  }

  lemma {:induction false} FirstRun(dailyLimit: int, s: State, e: Event)
    requires s.runs == []
    ensures |Step(dailyLimit, s, e).runs| <= 1
  {
  }

  /** Only a bundle's latest run may be active. */
  predicate OnlyLatestActive(runs: seq<Run>) {
    forall i :: 0 <= i < |runs| && runs[i].active ==> LatestRun(runs, runs[i].bundle) == Some(i)
  }

  /** The request's timestamp is not older than any run its bundle already has. */
  predicate InOrder(runs: seq<Run>, q: Request) {
    forall i :: 0 <= i < |runs| && runs[i].bundle == q.bundle ==> runs[i].createdAt <= q.now
  }

  lemma {:induction false} LatestAfterInsert(runs: seq<Run>, run: Run)
    ensures InOrder(runs, Request(run.bundle, run.customer, run.createdAt)) <==>
      LatestRun(runs + [run], run.bundle) == Some(|runs|)
    ensures forall b: nat :: b != run.bundle ==> LatestRun(runs + [run], b) == LatestRun(runs, b)
  {
  }

  /** An accepted request keeps one active run per bundle exactly when its timestamp is in order. */
  lemma {:induction false} InsertKeepsOneActiveIff(runs: seq<Run>, q: Request, dailyLimit: int)
    requires OnlyLatestActive(runs) && Accepts(runs, q, dailyLimit)
    ensures OnlyLatestActive(runs + [Run(q.bundle, q.customer, q.now, true)]) <==> InOrder(runs, q)
  {
    var run := Run(q.bundle, q.customer, q.now, true);
    LatestAfterInsert(runs, run);
    var after := runs + [run];
    assert after[|runs|] == run;
    if InOrder(runs, q) {
      forall i | 0 <= i < |after| && after[i].active
        ensures LatestRun(after, after[i].bundle) == Some(i)
      {
        if i < |runs| {
          assert runs[i].active && after[i] == runs[i];
        }
      }
    }
  }

  lemma {:induction false} LatestStep(runs: seq<Run>, run: Run, bundle: nat)
    ensures
      var before := LatestRun(runs, bundle);
      LatestRun(runs + [run], bundle) ==
      if run.bundle != bundle then before
      else if before.None? || run.createdAt >= runs[before.value].createdAt then Some(|runs|) else before
  {
  }

  lemma {:induction false} FinishKeepsLatest(runs: seq<Run>, id: nat, bundle: nat)
    requires id < |runs|
    ensures LatestRun(runs[id := runs[id].(active := false)], bundle) == LatestRun(runs, bundle)
  {
    var n := |runs| - 1;
    var front, last := runs[..n], runs[n];
    var done := runs[id].(active := false);
    assert runs == front + [last];
    LatestStep(front, last, bundle);
    if id < n {
      assert runs[id := done] == front[id := done] + [last];
      LatestStep(front[id := done], last, bundle);
      hide LatestRun, Newer;
      FinishKeepsLatest(front, id, bundle);
    } else {
      assert runs[id := done] == front + [done];
      LatestStep(front, done, bundle);
      hide LatestRun, Newer;
    }
  }

  /** Every accepted request of the history is in order. */
  predicate AllInOrder(dailyLimit: int, s: State, es: seq<Event>)
    decreases |es|
  {
    es == [] ||
    (&& (es[0].Decide? && es[0].r in s.requests && Accepts(s.runs, s.requests[es[0].r], dailyLimit) ==>
           InOrder(s.runs, s.requests[es[0].r]))
     && AllInOrder(dailyLimit, Step(dailyLimit, s, es[0]), es[1..]))
  }

  /** With timestamps in commit order no bundle ever has two active runs. */
  lemma {:induction false} OneActiveRunPerBundle(dailyLimit: int, s: State, es: seq<Event>)
    requires OnlyLatestActive(s.runs) && AllInOrder(dailyLimit, s, es)
    ensures OnlyLatestActive(Trace(dailyLimit, s, es).runs)
    decreases |es|
  {
    if es != [] {
      StepKeepsOneActive(dailyLimit, s, es[0]);
      hide Step, OnlyLatestActive, Accepts, InOrder;
      OneActiveRunPerBundle(dailyLimit, Step(dailyLimit, s, es[0]), es[1..]);
    }
  }

  lemma {:induction false} StepKeepsOneActive(dailyLimit: int, s: State, e: Event)
    requires OnlyLatestActive(s.runs)
    requires e.Decide? && e.r in s.requests && Accepts(s.runs, s.requests[e.r], dailyLimit) ==>
      InOrder(s.runs, s.requests[e.r])
    ensures OnlyLatestActive(Step(dailyLimit, s, e).runs)
  {
    hide LatestRun, Accepts, InOrder;
    match e
    case Stamp(_, _, _, _) =>
    case Decide(r) =>
      if r in s.requests && Accepts(s.runs, s.requests[r], dailyLimit) {
        InsertKeepsOneActiveIff(s.runs, s.requests[r], dailyLimit);
      }
    case Finish(id) =>
      if id < |s.runs| {
        forall b: nat
          ensures LatestRun(s.runs[id := s.runs[id].(active := false)], b) == LatestRun(s.runs, b)
        {
          FinishKeepsLatest(s.runs, id, b);
        }
      }
  }

  /** The active runs of a bundle that are not its latest one. */
  ghost function Hidden(runs: seq<Run>, bundle: nat): set<nat> {
    set i: nat | i < |runs| && runs[i].bundle == bundle && runs[i].active && LatestRun(runs, bundle) != Some(i)
  }

  /** How many accepted requests of the history for a bundle are out of order. */
  function LateInserts(dailyLimit: int, s: State, es: seq<Event>, bundle: nat): nat
    decreases |es|
  {
    if es == [] then 0
    else
      var late := es[0].Decide? && es[0].r in s.requests && s.requests[es[0].r].bundle == bundle &&
                  Accepts(s.runs, s.requests[es[0].r], dailyLimit) && !InOrder(s.runs, s.requests[es[0].r]);
      (if late then 1 else 0) + LateInserts(dailyLimit, Step(dailyLimit, s, es[0]), es[1..], bundle)
  }

  /** A decision taken out of order hides one active run more; nothing else does. */
  lemma {:induction false} InsertHides(runs: seq<Run>, q: Request, dailyLimit: int, bundle: nat)
    requires Accepts(runs, q, dailyLimit)
    ensures
      var after := runs + [Run(q.bundle, q.customer, q.now, true)];
      Hidden(after, bundle) <= Hidden(runs, bundle) +
        if q.bundle == bundle && !InOrder(runs, q) then {|runs|} else {}
  {
    var run := Run(q.bundle, q.customer, q.now, true);
    var after := runs + [run];
    LatestAfterInsert(runs, run);
    LatestStep(runs, run, bundle);
    hide LatestRun, InOrder, CountBetween;
    forall i: nat | i in Hidden(after, bundle) && i < |runs|
      ensures i in Hidden(runs, bundle)
    {
      assert after[i] == runs[i];
    }
  }

  lemma {:induction false} FinishHides(runs: seq<Run>, id: nat, bundle: nat)
    requires id < |runs|
    ensures Hidden(runs[id := runs[id].(active := false)], bundle) <= Hidden(runs, bundle)
  {
    FinishKeepsLatest(runs, id, bundle);
    hide LatestRun;
  }

  lemma {:induction false} Subset(a: set<nat>, b: set<nat>)
    requires a <= b
    ensures |a| <= |b|
    decreases |b|
  {
    if a == {} {
    } else {
      var x :| x in a;
      Subset(a - {x}, b - {x});
    }
  }

  lemma {:induction false} StepHides(dailyLimit: int, s: State, e: Event, bundle: nat)
    ensures |Hidden(Step(dailyLimit, s, e).runs, bundle)| <=
      |Hidden(s.runs, bundle)| + LateInserts(dailyLimit, s, [e], bundle)
  {
    hide Hidden, InOrder, LatestRun, CountBetween;
    assert [e][1..] == [];
    match e
    case Stamp(_, _, _, _) =>
    case Decide(r) =>
      if r in s.requests && Accepts(s.runs, s.requests[r], dailyLimit) {
        var q := s.requests[r];
        InsertHides(s.runs, q, dailyLimit, bundle);
        var more: set<nat> := if q.bundle == bundle && !InOrder(s.runs, q) then {|s.runs|} else {};
        Subset(Hidden(Step(dailyLimit, s, e).runs, bundle), Hidden(s.runs, bundle) + more);
      }
    case Finish(id) =>
      if id < |s.runs| {
        FinishHides(s.runs, id, bundle);
        Subset(Hidden(Step(dailyLimit, s, e).runs, bundle), Hidden(s.runs, bundle));
      }
  }

  /** In any interleaving a bundle has, beside its latest run, at most one active run for each request decided late. */
  lemma {:induction false} ActiveRunsAreBounded(dailyLimit: int, s: State, es: seq<Event>, bundle: nat)
    ensures |Hidden(Trace(dailyLimit, s, es).runs, bundle)| <=
      |Hidden(s.runs, bundle)| + LateInserts(dailyLimit, s, es, bundle)
    decreases |es|
  {
    if es != [] {
      StepHides(dailyLimit, s, es[0], bundle);
      assert [es[0]][1..] == [];
      hide Step, Hidden, Accepts, InOrder;
      ActiveRunsAreBounded(dailyLimit, Step(dailyLimit, s, es[0]), es[1..], bundle);
    }
  }

  /**
   Stamped before the locks, a request may be decided after a later one: its run hides behind the newer
   timestamp, and a third request is accepted while it is still active.
   */
  lemma {:induction false} LateDecisionGivesTwoActiveRuns()
    ensures
      var es := [Stamp(0, 7, 1, 10), Stamp(1, 7, 1, 20), Decide(1), Finish(0), Decide(0), Stamp(2, 7, 1, 30),
        Decide(2)];
      var runs := Trace(5, IDLE, es).runs;
      runs == [Run(7, 1, 20, false), Run(7, 1, 10, true), Run(7, 1, 30, true)]
  {
    var es := [Stamp(0, 7, 1, 10), Stamp(1, 7, 1, 20), Decide(1), Finish(0), Decide(0), Stamp(2, 7, 1, 30), Decide(2)];
    hide *;
    EarlySteps();
    LateSteps();
    var q0, q1, q2 := Request(7, 1, 10), Request(7, 1, 20), Request(7, 1, 30);
    var done, late := Run(7, 1, 20, false), Run(7, 1, 10, true);
    TraceStep(IDLE, es);
    TraceStep(State([], map[0 := q0]), es[1..]);
    TraceStep(State([], map[0 := q0, 1 := q1]), es[2..]);
    TraceStep(State([Run(7, 1, 20, true)], map[0 := q0]), es[3..]);
    TraceStep(State([done], map[0 := q0]), es[4..]);
    TraceStep(State([done, late], map[]), es[5..]);
    TraceStep(State([done, late], map[2 := q2]), es[6..]);
    assert es[1..][1..] == es[2..] && es[2..][1..] == es[3..] && es[3..][1..] == es[4..];
    assert es[4..][1..] == es[5..] && es[5..][1..] == es[6..] && es[6..][1..] == [];
  }

  lemma {:induction false} EarlySteps()
    ensures
      var q0, q1 := Request(7, 1, 10), Request(7, 1, 20);
      && Step(5, IDLE, Stamp(0, 7, 1, 10)) == State([], map[0 := q0])
      && Step(5, State([], map[0 := q0]), Stamp(1, 7, 1, 20)) == State([], map[0 := q0, 1 := q1])
      && Step(5, State([], map[0 := q0, 1 := q1]), Decide(1)) == State([Run(7, 1, 20, true)], map[0 := q0])
      && Step(5, State([Run(7, 1, 20, true)], map[0 := q0]), Finish(0)) == State([Run(7, 1, 20, false)], map[0 := q0])
  {
  }

  lemma {:induction false} LateSteps()
    ensures
      var q0, q2 := Request(7, 1, 10), Request(7, 1, 30);
      var done, late := Run(7, 1, 20, false), Run(7, 1, 10, true);
      && Step(5, State([done], map[0 := q0]), Decide(0)) == State([done, late], map[])
      && Step(5, State([done, late], map[]), Stamp(2, 7, 1, 30)) == State([done, late], map[2 := q2])
      && Step(5, State([done, late], map[2 := q2]), Decide(2)) == State([done, late, Run(7, 1, 30, true)], map[])
  {
  }

  lemma {:induction false} TraceStep(s: State, es: seq<Event>)
    requires es != []
    ensures Trace(5, s, es) == Trace(5, Step(5, s, es[0]), es[1..])
    ensures Trace(5, s, []) == s
  {
  }
}
