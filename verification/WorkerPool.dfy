/**
 The pool that processes evaluation batches: a queue filled before any worker starts, a fixed number
 of workers, a results channel with one place per worker, and a cancellation every failure triggers.
 */
module WorkerPool {
  import opened Numbers
  import opened Wrappers

  /** A batch's error: whether it is a cancellation or deadline error, and which batch reported it. */
  datatype Failure = Failure(worker: nat, number: int, isContext: bool)

  datatype Worker =
    | Idle
    | Holding(batch: nat)
    | Busy(batch: nat)
    | Failing(batch: nat)
    | Stopped

  datatype Fate =
    | HeldBy(worker: nat)
    | RunBy(worker: nat)
    | Succeeded
    | Failed(worker: nat)
    | Dropped

  /**
   `numbers` are the pending batches' numbers. The queue holds the batches from `|fates|` on; each
   batch taken from it has a fate. `started` lists the batches handed to the processor, in order.
   */
  datatype State = State(
    numbers: seq<int>,
    workers: seq<Worker>,
    fates: seq<Fate>,
    started: seq<nat>,
    results: seq<Failure>,
    cancelled: bool,
    parentCancelled: bool)

  datatype Event =
    | Take(w: nat)
    | Check(w: nat)
    | Finish(w: nat, error: Option<bool>)
    | Cancel(w: nat)
    | CancelParent

  function WorkerCount(maxParallel: int, pending: nat): (n: nat)
    ensures pending > 0 ==> 1 <= n <= pending && (maxParallel >= 1 ==> n <= maxParallel) && (maxParallel < 1 ==> n == 1)
  {
    var wanted := if maxParallel > 1 then maxParallel else 1;
    if wanted > pending then pending else wanted
  }

  function Begin(numbers: seq<int>, maxParallel: int): State {
    State(numbers, seq(WorkerCount(maxParallel, |numbers|), _ => Idle), [], [], [], false, false)
  }

  predicate Enabled(s: State, e: Event) {
    match e
    case Take(w) => w < |s.workers| && s.workers[w].Idle?
    case Check(w) => w < |s.workers| && s.workers[w].Holding? && s.workers[w].batch < |s.fates|
    case Finish(w, _) => w < |s.workers| && s.workers[w].Busy? && s.workers[w].batch < |s.fates| &&
      s.workers[w].batch < |s.numbers|
    case Cancel(w) => w < |s.workers| && s.workers[w].Failing?
    case CancelParent => true
  }

  /** A step that is not enabled does nothing. */
  function Step(s: State, e: Event): (r: State) {
    if !Enabled(s, e) then s
    else
      match e
      case Take(w) =>
        if |s.fates| >= |s.numbers| then s.(workers := s.workers[w := Stopped])
        else s.(workers := s.workers[w := Holding(|s.fates|)], fates := s.fates + [HeldBy(w)])
      case Check(w) =>
        var b := s.workers[w].batch;
        if s.cancelled then s.(workers := s.workers[w := Stopped], fates := s.fates[b := Dropped])
        else s.(workers := s.workers[w := Busy(b)], fates := s.fates[b := RunBy(w)], started := s.started + [b])
      case Finish(w, error) =>
        var b := s.workers[w].batch;
        if error.None? then s.(workers := s.workers[w := Idle], fates := s.fates[b := Succeeded])
        else
          s.(workers := s.workers[w := Failing(b)], fates := s.fates[b := Failed(w)],
             results := s.results + [Failure(w, s.numbers[b], error.value)])
      case Cancel(w) => s.(workers := s.workers[w := Stopped], cancelled := true)
      case CancelParent => s.(cancelled := true, parentCancelled := true)
  }

  function Run(s: State, es: seq<Event>): (r: State)
    decreases |es|
  {
    if es == [] then s else Run(Step(s, es[0]), es[1..])
  }

  /** All workers have returned, so the pool returns. */
  predicate Done(s: State) {
    forall w :: 0 <= w < |s.workers| ==> s.workers[w].Stopped?
  }

  // ---------------------------------------------------------------- what every schedule keeps

  predicate WorkerPaired(s: State, w: nat)
    requires w < |s.workers|
  {
    match s.workers[w]
    case Idle => true
    case Stopped => true
    case Holding(b) => b < |s.fates| && s.fates[b] == HeldBy(w)
    case Busy(b) => b < |s.fates| && s.fates[b] == RunBy(w)
    case Failing(b) => b < |s.fates| && s.fates[b] == Failed(w)
  }

  predicate BatchPaired(s: State, b: nat)
    requires b < |s.fates|
  {
    match s.fates[b]
    case HeldBy(w) => w < |s.workers| && s.workers[w] == Holding(b)
    case RunBy(w) => w < |s.workers| && s.workers[w] == Busy(b)
    case Failed(w) => w < |s.workers| && (s.workers[w] == Failing(b) || s.workers[w].Stopped?)
    case Succeeded => true
    case Dropped => true
  }

  /** A worker and its batch agree about each other. */
  predicate Paired(s: State) {
    && |s.fates| <= |s.numbers|
    && (forall w: nat {:trigger s.workers[w]} :: w < |s.workers| ==> WorkerPaired(s, w))
    && (forall b: nat {:trigger s.fates[b]} :: b < |s.fates| ==> BatchPaired(s, b))
  }

  predicate WasStarted(f: Fate) { f.RunBy? || f.Succeeded? || f.Failed? }

  /** No batch is processed twice, and those processed are the ones whose fate says so. */
  predicate StartedOnce(s: State) {
    && Distinct(s.started)
    && (forall i :: 0 <= i < |s.started| ==> s.started[i] < |s.fates| && WasStarted(s.fates[s.started[i]]))
    && (forall b: nat :: b < |s.fates| && WasStarted(s.fates[b]) ==> b in s.started)
  }

  function Senders(results: seq<Failure>): (ws: seq<nat>)
    ensures |ws| == |results|
  {
    seq(|results|, i requires 0 <= i < |results| => results[i].worker)
  }

  /** Each worker sends at most one failure, and then stops. */
  predicate OneFailureEach(s: State) {
    && Distinct(Senders(s.results))
    && (forall i :: 0 <= i < |s.results| ==>
          var w := s.results[i].worker;
          w < |s.workers| && (s.workers[w].Failing? || s.workers[w].Stopped?))
    && (forall b :: 0 <= b < |s.fates| && s.fates[b].Failed? ==> s.results != [])
  }

  /** A worker that stopped early, or dropped a batch, did so because of a failure or the caller. */
  predicate StopsForAReason(s: State) {
    && (s.cancelled ==> s.parentCancelled || s.results != [])
    && (forall w :: 0 <= w < |s.workers| && s.workers[w].Stopped? ==> s.cancelled || |s.fates| == |s.numbers|)
    && (forall b :: 0 <= b < |s.fates| && s.fates[b].Dropped? ==> s.cancelled)
    && (s.results == [] ==> forall w :: 0 <= w < |s.workers| ==> !s.workers[w].Failing?)
  }

  ghost predicate Inv(s: State) {
    Paired(s) && StartedOnce(s) && OneFailureEach(s) && StopsForAReason(s)
  }

  lemma {:induction false} StepKeepsWorkers(s: State, e: Event, w: nat)
    requires Paired(s) && w < |Step(s, e).workers|
    ensures WorkerPaired(Step(s, e), w)
  {
    assert WorkerPaired(s, w);
    if !e.CancelParent? && Enabled(s, e) {
      assert WorkerPaired(s, e.w);
    }
  }

  lemma {:induction false} StepKeepsBatches(s: State, e: Event, b: nat)
    requires Paired(s) && b < |Step(s, e).fates|
    ensures BatchPaired(Step(s, e), b)
  {
    assert b < |s.fates| ==> BatchPaired(s, b);
    if !e.CancelParent? && Enabled(s, e) {
      assert WorkerPaired(s, e.w);
    }
  }

  lemma {:induction false} StepKeepsPairs(s: State, e: Event)
    requires Paired(s)
    ensures Paired(Step(s, e))
  {
    var s' := Step(s, e);
    assert |s'.fates| <= |s'.numbers|;
    hide Step, WorkerPaired, BatchPaired;
    forall w: nat | w < |s'.workers|
      ensures WorkerPaired(s', w)
    {
      StepKeepsWorkers(s, e, w);
    }
    forall b: nat | b < |s'.fates|
      ensures BatchPaired(s', b)
    {
      StepKeepsBatches(s, e, b);
    }
  }

  /** A batch is handed to the processor: from held to running. */
  lemma {:induction false} StartKeepsStarted(s: State, w: nat)
    requires Paired(s) && StartedOnce(s) && Enabled(s, Check(w)) && !s.cancelled
    ensures StartedOnce(Step(s, Check(w)))
  {
    assert WorkerPaired(s, w);
    var s' := Step(s, Check(w));
    var b := s.workers[w].batch;
    assert !WasStarted(s.fates[b]) && b !in s.started;
    hide Paired;
    assert s'.started[|s.started|] == b;
    forall c: nat | c < |s'.fates| && WasStarted(s'.fates[c])
      ensures c in s'.started
    {
      if c != b {
        assert WasStarted(s.fates[c]);
      }
    }
  }

  lemma {:induction false} StepKeepsStarted(s: State, e: Event)
    requires Paired(s) && StartedOnce(s)
    ensures StartedOnce(Step(s, e))
  {
    if e.Check? && Enabled(s, e) && !s.cancelled {
      hide Step, Paired, StartedOnce, Enabled;
      StartKeepsStarted(s, e.w);
    } else if !e.CancelParent? && Enabled(s, e) {
      assert WorkerPaired(s, e.w);
      hide Paired, Enabled;
      var s' := Step(s, e);
      assert forall c: nat :: c < |s'.fates| && WasStarted(s'.fates[c]) ==> c < |s.fates| && WasStarted(s.fates[c]);
      assert forall c: nat :: c < |s.fates| && WasStarted(s.fates[c]) ==> c < |s'.fates| && WasStarted(s'.fates[c]);
    }
  }

  /** A failure is sent by a busy worker, who therefore sent none before. */
  lemma {:induction false} SendKeepsFailures(s: State, w: nat, isContext: bool)
    requires Paired(s) && OneFailureEach(s) && Enabled(s, Finish(w, Some(isContext)))
    ensures OneFailureEach(Step(s, Finish(w, Some(isContext))))
  {
    hide Paired;
    var s' := Step(s, Finish(w, Some(isContext)));
    assert forall i ::
      0 <= i < |s.results| ==> Senders(s'.results)[i] == Senders(s.results)[i] && s.results[i].worker != w;
  }

  lemma {:induction false} StepKeepsFailures(s: State, e: Event)
    requires Paired(s) && OneFailureEach(s)
    ensures OneFailureEach(Step(s, e))
  {
    hide Paired;
    if e.Finish? && e.error.Some? && Enabled(s, e) {
      hide Step, OneFailureEach;
      SendKeepsFailures(s, e.w, e.error.value);
    }
  }

  lemma {:induction false} StepKeepsReasons(s: State, e: Event)
    requires Paired(s) && OneFailureEach(s) && StopsForAReason(s)
    ensures StopsForAReason(Step(s, e))
  {
  }

  lemma {:induction false} StepKeepsInv(s: State, e: Event)
    requires Inv(s)
    ensures Inv(Step(s, e))
  {
    StepKeepsPairs(s, e);
    StepKeepsStarted(s, e);
    StepKeepsFailures(s, e);
    StepKeepsReasons(s, e);
    hide Step, Paired, StartedOnce, OneFailureEach, StopsForAReason;
  }

  lemma {:induction false} RunKeepsInv(s: State, es: seq<Event>)
    requires Inv(s)
    ensures Inv(Run(s, es)) && Run(s, es).numbers == s.numbers && |Run(s, es).workers| == |s.workers|
    decreases |es|
  {
    if es != [] {
      StepKeepsInv(s, es[0]);
      assert Step(s, es[0]).numbers == s.numbers && |Step(s, es[0]).workers| == |s.workers|;
      hide Step, Inv;
      RunKeepsInv(Step(s, es[0]), es[1..]);
    }
  }

  lemma {:induction false} BeginIsConsistent(numbers: seq<int>, maxParallel: int)
    ensures Inv(Begin(numbers, maxParallel))
  {
    var s := Begin(numbers, maxParallel);
    forall w: nat | w < |s.workers|
      ensures WorkerPaired(s, w)
    {
      assert s.workers[w] == Idle;
    }
    assert Paired(s);
    assert StartedOnce(s);
  }

  // ---------------------------------------------------------------- what the pool promises

  /** In every schedule no batch is handed to the processor twice, and never more of them run than allowed. */
  lemma {:induction false} NoBatchRunsTwice(numbers: seq<int>, maxParallel: int, es: seq<Event>)
    ensures
      var s := Run(Begin(numbers, maxParallel), es);
      && Distinct(s.started)
      && |s.workers| == WorkerCount(maxParallel, |numbers|)
      && (forall b, c :: 0 <= b < c < |s.fates| && s.fates[b].RunBy? && s.fates[c].RunBy? ==>
            s.fates[b].worker != s.fates[c].worker && s.fates[b].worker < |s.workers| &&
              s.fates[c].worker < |s.workers|)
  {
    hide Run;
    BeginIsConsistent(numbers, maxParallel);
    RunKeepsInv(Begin(numbers, maxParallel), es);
    hide StartedOnce, OneFailureEach, StopsForAReason;
    var s := Run(Begin(numbers, maxParallel), es);
    assert Distinct(s.started) by { StartedIsDistinct(s); }
    forall b, c | 0 <= b < c < |s.fates| && s.fates[b].RunBy? && s.fates[c].RunBy?
      ensures s.fates[b].worker != s.fates[c].worker && s.fates[b].worker < |s.workers| &&
        s.fates[c].worker < |s.workers|
    {
      assert BatchPaired(s, b) && BatchPaired(s, c);
    }
  }

  lemma {:induction false} StartedIsDistinct(s: State)
    requires StartedOnce(s)
    ensures Distinct(s.started)
  {
  }

  /** The workers running some batches. */
  function RunningWorkers(s: State, running: seq<nat>): (ws: seq<nat>)
    requires forall i :: 0 <= i < |running| ==> running[i] < |s.fates| && s.fates[running[i]].RunBy?
    ensures |ws| == |running|
  {
    seq<nat>(|running|, i requires 0 <= i < |running| => s.fates[running[i]].worker)
  }

  /** At no moment of any schedule are more than max(1, maxParallel) batches being processed. */
  lemma {:induction false} AtMostMaxParallelRun(numbers: seq<int>, maxParallel: int, es: seq<Event>, running: seq<nat>)
    requires Distinct(running)
    requires
      var s := Run(Begin(numbers, maxParallel), es);
      forall i :: 0 <= i < |running| ==> running[i] < |s.fates| && s.fates[running[i]].RunBy?
    ensures |running| <= (if maxParallel > 1 then maxParallel else 1)
  {
    hide Run;
    var s := Run(Begin(numbers, maxParallel), es);
    NoBatchRunsTwice(numbers, maxParallel, es);
    BeginIsConsistent(numbers, maxParallel);
    RunKeepsInv(Begin(numbers, maxParallel), es);
    forall i | 0 <= i < |running|
      ensures s.fates[running[i]].worker < |s.workers|
    {
      assert BatchPaired(s, running[i]);
    }
    hide Paired, StartedOnce, OneFailureEach, StopsForAReason;
    DistinctBelow(RunningWorkers(s, running), |s.workers|);
  }

  /** A worker about to report a failure finds room in the channel, so no send blocks. */
  lemma {:induction false} SendNeverBlocks(numbers: seq<int>, maxParallel: int, es: seq<Event>, w: nat)
    requires
      var s := Run(Begin(numbers, maxParallel), es);
      w < |s.workers| && s.workers[w].Busy?
    ensures
      var s := Run(Begin(numbers, maxParallel), es);
      |s.results| < WorkerCount(maxParallel, |numbers|)
  {
    hide Run;
    BeginIsConsistent(numbers, maxParallel);
    RunKeepsInv(Begin(numbers, maxParallel), es);
    var s := Run(Begin(numbers, maxParallel), es);
    DistinctBelowWithout(Senders(s.results), |s.workers|, w);
  }

  predicate CanMove(s: State, w: nat) {
    Enabled(s, Take(w)) || Enabled(s, Check(w)) || Enabled(s, Finish(w, None)) || Enabled(s, Cancel(w))
  }

  /** Until every worker has returned, some step is possible: the pool cannot get stuck. */
  lemma {:induction false} NeverStuck(numbers: seq<int>, maxParallel: int, es: seq<Event>)
    ensures
      var s := Run(Begin(numbers, maxParallel), es);
      Done(s) || exists w: nat :: w < |s.workers| && CanMove(s, w)
  {
    hide Run;
    BeginIsConsistent(numbers, maxParallel);
    RunKeepsInv(Begin(numbers, maxParallel), es);
    var s := Run(Begin(numbers, maxParallel), es);
    if !Done(s) {
      var w: nat :| w < |s.workers| && !s.workers[w].Stopped?;
      assert CanMove(s, w);
    }
  }

  /** The failure a worker sent is that of one failed batch, by its number. */
  predicate Names(s: State, f: Failure, b: nat) {
    b < |s.fates| && b < |s.numbers| && s.fates[b] == Failed(f.worker) && s.numbers[b] == f.number
  }

  /** The channel holds a failure for every failed batch, and nothing else. */
  ghost predicate FailuresAreReal(s: State) {
    && (forall f :: f in s.results ==> exists b: nat :: Names(s, f, b))
    && (forall b: nat :: b < |s.fates| && s.fates[b].Failed? ==> exists f :: f in s.results && Names(s, f, b))
  }

  lemma {:induction false} FailedStaysFailed(s: State, e: Event, f: Failure, b: nat)
    requires Paired(s) && Names(s, f, b)
    ensures Names(Step(s, e), f, b)
  {
    if !e.CancelParent? && Enabled(s, e) {
      assert WorkerPaired(s, e.w);
    }
  }

  lemma {:induction false} NewFailure(s: State, e: Event)
    requires Paired(s)
    ensures
      var t := Step(s, e);
      || t.results == s.results
      || (|t.results| == |s.results| + 1 && t.results[..|s.results|] == s.results && e.Finish? && e.error.Some? &&
          e.w < |s.workers| && s.workers[e.w].Busy? && Names(t, t.results[|s.results|], s.workers[e.w].batch))
  {
  }

  lemma {:induction false} NewlyFailed(s: State, e: Event, b: nat)
    requires Paired(s) && b < |Step(s, e).fates| && Step(s, e).fates[b].Failed?
    ensures
      || (b < |s.fates| && s.fates[b].Failed?)
      || (e.Finish? && e.error.Some? && Enabled(s, e) && b == s.workers[e.w].batch)
  {
  }

  lemma {:induction false} StepKeepsReal(s: State, e: Event)
    requires Paired(s) && FailuresAreReal(s)
    ensures FailuresAreReal(Step(s, e))
  {
    hide Step, Names, Paired, Enabled;
    var t := Step(s, e);
    NewFailure(s, e);
    forall f | f in t.results
      ensures exists b: nat :: Names(t, f, b)
    {
      if f in s.results {
        var b: nat :| Names(s, f, b);
        FailedStaysFailed(s, e, f, b);
      }
    }
    forall b: nat | b < |t.fates| && t.fates[b].Failed?
      ensures exists f :: f in t.results && Names(t, f, b)
    {
      NewlyFailed(s, e, b);
      if b < |s.fates| && s.fates[b].Failed? {
        var f :| f in s.results && Names(s, f, b);
        FailedStaysFailed(s, e, f, b);
        assert f in t.results;
      } else {
        SendsOne(s, e);
        assert t.results[|s.results|] in t.results;
      }
    }
  }

  lemma {:induction false} SendsOne(s: State, e: Event)
    requires Enabled(s, e) && e.Finish? && e.error.Some?
    ensures |Step(s, e).results| == |s.results| + 1
  {
  }

  lemma {:induction false} RunKeepsReal(s: State, es: seq<Event>)
    requires Paired(s) && FailuresAreReal(s)
    ensures FailuresAreReal(Run(s, es))
    decreases |es|
  {
    if es != [] {
      StepKeepsPairs(s, es[0]);
      StepKeepsReal(s, es[0]);
      hide Step, Paired, FailuresAreReal;
      RunKeepsReal(Step(s, es[0]), es[1..]);
    }
  }

  /** The caller counts as cancelled iff it was cancelled during the run, whatever the workers did. */
  lemma {:induction false} CancelledIffTheCallerIs(s: State, es: seq<Event>)
    ensures Run(s, es).parentCancelled <==> s.parentCancelled || CancelParent in es
    decreases |es|
  {
    if es != [] {
      assert Step(s, es[0]).parentCancelled <==> s.parentCancelled || es[0] == CancelParent;
      hide Step;
      CancelledIffTheCallerIs(Step(s, es[0]), es[1..]);
      assert es == [es[0]] + es[1..];
    }
  }

  /** In every schedule the failures sent are exactly those of the failed batches, each under its number. */
  lemma {:induction false} FailuresNameFailedBatches(numbers: seq<int>, maxParallel: int, es: seq<Event>)
    ensures FailuresAreReal(Run(Begin(numbers, maxParallel), es))
  {
    BeginIsConsistent(numbers, maxParallel);
    hide Paired, StartedOnce, OneFailureEach, StopsForAReason;
    RunKeepsReal(Begin(numbers, maxParallel), es);
  }

  /** What the pool returns: the selected failure, else the caller's own cancellation, else nothing. */
  predicate ReturnsNil(s: State) {
    Done(s) && s.results == [] && !s.parentCancelled
  }

  /** If the pool returns no error, every batch was processed exactly once and successfully. */
  lemma {:induction false} NilMeansAllSucceeded(numbers: seq<int>, maxParallel: int, es: seq<Event>)
    requires numbers != [] && ReturnsNil(Run(Begin(numbers, maxParallel), es))
    ensures
      var s := Run(Begin(numbers, maxParallel), es);
      && |s.fates| == |numbers| == |s.started|
      && (forall b :: 0 <= b < |s.fates| ==> s.fates[b].Succeeded?)
      && Distinct(s.started) && (forall b: nat :: b < |numbers| <==> b in s.started)
  {
    hide Run;
    BeginIsConsistent(numbers, maxParallel);
    RunKeepsInv(Begin(numbers, maxParallel), es);
    var s := Run(Begin(numbers, maxParallel), es);
    assert s.workers[0].Stopped?;
    assert |s.fates| == |s.numbers|;
    forall b | 0 <= b < |s.fates|
      ensures s.fates[b].Succeeded?
    {
      assert BatchPaired(s, b);
    }
    AllStarted(s);
  }

  /** And once all workers have returned it returns no error iff all succeeded and the caller was not cancelled. */
  lemma {:induction false} NilIffAllSucceeded(numbers: seq<int>, maxParallel: int, es: seq<Event>)
    requires numbers != [] && Done(Run(Begin(numbers, maxParallel), es))
    ensures
      var s := Run(Begin(numbers, maxParallel), es);
      ReturnsNil(s) <==>
        |s.fates| == |numbers| && (forall b :: 0 <= b < |s.fates| ==> s.fates[b].Succeeded?) && CancelParent !in es
  {
    hide Step;
    var s := Run(Begin(numbers, maxParallel), es);
    CancelledIffTheCallerIs(Begin(numbers, maxParallel), es);
    FailuresNameFailedBatches(numbers, maxParallel, es);
    assert FailuresAreReal(s);
    hide Run;
    if ReturnsNil(s) {
      NilMeansAllSucceeded(numbers, maxParallel, es);
    } else if s.results != [] {
      var f := s.results[0];
      assert f in s.results;
      var b: nat :| Names(s, f, b);
      assert s.fates[b].Failed?;
    }
  }

  lemma {:induction false} AllStarted(s: State)
    requires StartedOnce(s) && forall b :: 0 <= b < |s.fates| ==> s.fates[b].Succeeded?
    ensures |s.started| == |s.fates| && forall b: nat :: b < |s.fates| <==> b in s.started
  {
    DistinctCovering(s.started, |s.fates|);
  }

  // ---------------------------------------------------------------- which failure is reported

  /** Real errors before cancellations, then the smaller batch number. */
  predicate Before(a: Failure, b: Failure) {
    (!a.isContext && b.isContext) || (a.isContext == b.isContext && a.number < b.number)
  }

  /** One pass over the failures in the order they arrived. */
  method SelectFailure(results: seq<Failure>) returns (selected: Option<Failure>)
    ensures selected.None? <==> results == []
    ensures selected.Some? ==> selected.value in results && forall r :: r in results ==> !Before(r, selected.value)
  {
    selected := None;
    for i := 0 to |results|
      invariant selected.None? <==> i == 0
      invariant selected.Some? ==>
        selected.value in results[..i] && forall r :: r in results[..i] ==> !Before(r, selected.value)
    {
      var result := results[i];
      if selected.None? ||
         (selected.value.isContext && !result.isContext) ||
         (selected.value.isContext == result.isContext && result.number < selected.value.number)
      {
        selected := Some(result);
      }
      assert results[..i + 1] == results[..i] + [result];
    }
    assert results[..|results|] == results;
  }

  /** Whatever order the failures arrive in, the one that is reported names the same batch. */
  lemma {:induction false} ArrivalOrderDoesNotMatter(a: seq<Failure>, b: seq<Failure>, x: Failure, y: Failure)
    requires multiset(a) == multiset(b)
    requires x in a && forall r :: r in a ==> !Before(r, x)
    requires y in b && forall r :: r in b ==> !Before(r, y)
    ensures x.number == y.number && x.isContext == y.isContext
  {
    assert x in multiset(a) && y in multiset(b);
    assert x in b && y in a;
  }

  /** A cancellation is reported only if no batch failed for a reason of its own. */
  lemma {:induction false} RealErrorsWin(results: seq<Failure>, x: Failure)
    requires x in results && forall r :: r in results ==> !Before(r, x)
    ensures x.isContext <==> forall r :: r in results ==> r.isContext
  {
  }

  datatype PoolResult = Nil | BatchError(number: int, isContext: bool) | ParentError

  /** What the pool returns once its workers have: the selected failure, else the caller's cancellation. */
  method Conclude(s: State) returns (r: PoolResult)
    ensures r.Nil? <==> s.results == [] && !s.parentCancelled
    ensures r.BatchError? <==> s.results != []
    ensures r.BatchError? ==>
      exists f :: f in s.results && f.number == r.number && f.isContext == r.isContext &&
        forall g :: g in s.results ==> !Before(g, f)
  {
    var selected := SelectFailure(s.results);
    if selected.Some? { return BatchError(selected.value.number, selected.value.isContext); }
    return if s.parentCancelled then ParentError else Nil;
  }
}
