/**
 Processing one evaluation batch over any history of crashes and resumptions, and the final count
 check over all batches of a run. What is stored survives a crash: the attempts, the score rows and the
 completion event; the process does not.
 */
module EvaluationAttempts {
  import opened Wrappers

  datatype CallError = NoError | Retryable | Fatal

  datatype StoredStatus = Successful | RetryableStatus | FatalStatus

  /** One call to the provider: its error, the status kept for audit, and the rows a valid answer gives. */
  datatype Attempt = Attempt(number: nat, error: CallError, status: StoredStatus, rows: Option<nat>)

  datatype Process =
    | Absent
    | Looping(next: nat)
    | Inserting(rows: nat)
    | Completing

  datatype Batch = Batch(tagCount: nat, attempts: seq<Attempt>, scores: nat, completed: bool, process: Process)

  datatype Limits = Limits(maxRetries: int, maxMissing: nat)

  datatype Event =
    | Resume
    | Call(error: CallError, status: StoredStatus, rows: Option<nat>)
    | Insert
    | Complete
    | Crash

  /** A call without an error is stored as successful, and a valid answer leaves few enough tags out. */
  predicate Possible(l: Limits, b: Batch, e: Event) {
    e.Call? ==>
      && (e.error.NoError? ==> e.status.Successful?)
      && (e.rows.Some? ==> e.rows.value <= b.tagCount <= e.rows.value + l.maxMissing)
  }

  function MaxAttempts(l: Limits): int {
    l.maxRetries + 1
  }

  function Step(l: Limits, b: Batch, e: Event): (r: Batch) {
    if !Possible(l, b, e) then b
    else
      match e
      case Resume =>
        if !b.process.Absent? || b.completed then b
        else if b.scores == b.tagCount then b.(process := Completing)
        else if b.attempts == [] then b.(process := Looping(1))
        else
          var latest := b.attempts[|b.attempts| - 1];
          if latest.status.Successful? && latest.rows.Some? then b.(process := Inserting(latest.rows.value))
          else if latest.status.FatalStatus? then b
          else b.(process := Looping(latest.number + 1))
      case Call(error, status, rows) =>
        if !b.process.Looping? then b
        else if b.process.next > MaxAttempts(l) then b.(process := Absent)
        else
          var b' := b.(attempts := b.attempts + [Attempt(b.process.next, error, status, rows)]);
          if error.Fatal? then b'.(process := Absent)
          else if error.Retryable? || rows.None? then b'.(process := Looping(b.process.next + 1))
          else b'.(process := Inserting(rows.value))
      case Insert =>
        if !b.process.Inserting? then b
        else if b.scores > 0 && b.process.rows > 0 then b.(process := Absent)
        else b.(scores := b.scores + b.process.rows, process := Completing)
      case Complete =>
        if b.process.Completing? then b.(completed := true, process := Absent) else b
      case Crash => b.(process := Absent)
  }

  function Run(l: Limits, b: Batch, es: seq<Event>): (r: Batch)
    decreases |es|
  {
    if es == [] then b else Run(l, Step(l, b, es[0]), es[1..])
  }

  function Fresh(tagCount: nat): Batch {
    Batch(tagCount, [], 0, false, Absent)
  }

  // ---------------------------------------------------------------- what every history keeps

  predicate Numbered(attempts: seq<Attempt>) {
    forall i :: 0 <= i < |attempts| ==> attempts[i].number == i + 1
  }

  /** Rows allowed by validation. */
  predicate Enough(l: Limits, b: Batch, rows: nat) {
    rows <= b.tagCount <= rows + l.maxMissing
  }

  predicate LatestAnswers(attempts: seq<Attempt>, rows: nat) {
    attempts != [] && attempts[|attempts| - 1].status.Successful? && attempts[|attempts| - 1].rows == Some(rows)
  }

  predicate Inv(l: Limits, b: Batch) {
    && Numbered(b.attempts)
    && |b.attempts| <= (if MaxAttempts(l) > 0 then MaxAttempts(l) else 0)
    && (forall i :: 0 <= i < |b.attempts| && b.attempts[i].rows.Some? ==> Enough(l, b, b.attempts[i].rows.value))
    && (b.scores > 0 ==> LatestAnswers(b.attempts, b.scores))
    && (b.completed ==> Enough(l, b, b.scores))
    && match b.process
       case Absent => true
       case Looping(next) => next == |b.attempts| + 1 && b.scores == 0 && !b.completed
       case Inserting(rows) => LatestAnswers(b.attempts, rows) && !b.completed
       case Completing => Enough(l, b, b.scores) && !b.completed
  }

  lemma {:induction false} StepKeepsInv(l: Limits, b: Batch, e: Event)
    requires Inv(l, b)
    ensures Inv(l, Step(l, b, e)) && Step(l, b, e).tagCount == b.tagCount
  {
  }

  lemma {:induction false} RunKeepsInv(l: Limits, b: Batch, es: seq<Event>)
    requires Inv(l, b)
    ensures Inv(l, Run(l, b, es)) && Run(l, b, es).tagCount == b.tagCount
    decreases |es|
  {
    if es != [] {
      StepKeepsInv(l, b, es[0]);
      hide Step, Inv;
      RunKeepsInv(l, Step(l, b, es[0]), es[1..]);
    }
  }

  /**
   Over any history of crashes and resumptions the recorded attempts are numbered 1, 2, ... without a
   gap, and there are never more of them than one plus the allowed retries.
   */
  lemma {:induction false} AttemptsAreNumberedAndBounded(l: Limits, tagCount: nat, es: seq<Event>)
    requires l.maxRetries >= 0
    ensures
      var attempts := Run(l, Fresh(tagCount), es).attempts;
      Numbered(attempts) && |attempts| <= l.maxRetries + 1
  {
    RunKeepsInv(l, Fresh(tagCount), es);
  }

  // ---------------------------------------------------------------- one uninterrupted execution

  lemma {:induction false} RunAppended(l: Limits, b: Batch, es: seq<Event>, e: Event)
    ensures Run(l, b, es + [e]) == Step(l, Run(l, b, es), e)
    decreases |es|
  {
    if es == [] {
      assert [e][1..] == [];
      assert Run(l, Step(l, b, e), []) == Step(l, b, e);
    } else {
      assert (es + [e])[0] == es[0] && (es + [e])[1..] == es[1..] + [e];
      hide Step;
      RunAppended(l, Step(l, b, es[0]), es[1..], e);
    }
  }

  /** A call worth repeating, and one whose answer is valid. */
  predicate Retried(e: Event) {
    e.Call? && (e.error.Retryable? || (e.error.NoError? && e.rows.None?))
  }

  predicate Answered(e: Event) {
    e.Call? && e.error.NoError? && e.rows.Some?
  }

  /** Calls as they are recorded, numbered after those already there. */
  function Calls(answers: seq<Event>, before: nat): (calls: seq<Attempt>)
    requires forall i :: 0 <= i < |answers| ==> answers[i].Call?
    ensures |calls| == |answers|
  {
    seq(|answers|, i requires 0 <= i < |answers| =>
      Attempt(before + i + 1, answers[i].error, answers[i].status, answers[i].rows))
  }

  predicate LatestUsable(b: Batch) {
    b.attempts != [] && b.attempts[|b.attempts| - 1].status.Successful? && b.attempts[|b.attempts| - 1].rows.Some?
  }

  predicate LatestFatal(b: Batch) {
    b.attempts != [] && b.attempts[|b.attempts| - 1].status.FatalStatus?
  }

  /** Some answer is valid, all before it are worth repeating, and attempts are left for it. */
  predicate GetsAnswer(l: Limits, attempts: nat, answers: seq<Event>) {
    exists k :: 0 <= k < |answers| && Answered(answers[k]) && attempts + k <= l.maxRetries &&
      forall j :: 0 <= j < k ==> Retried(answers[j])
  }

  /** When an execution completes the batch. */
  predicate Completes(l: Limits, b: Batch, answers: seq<Event>) {
    b.completed || b.scores == b.tagCount ||
    (b.scores == 0 && (LatestUsable(b) || (!LatestFatal(b) && GetsAnswer(l, |b.attempts|, answers))))
  }

  /** What the loop over attempts leaves behind: the calls it made, and why it ended. */
  ghost predicate Called(l: Limits, start: Batch, b: Batch, answers: seq<Event>, n: nat)
    requires n <= |answers| && forall i :: 0 <= i < |answers| ==> answers[i].Call?
  {
    && b.tagCount == start.tagCount && b.scores == start.scores && !b.completed
    && b.attempts == start.attempts + Calls(answers[..n], |start.attempts|)
    && (forall j :: 0 <= j < n - 1 ==> Retried(answers[j]))
    && match b.process
       case Looping(next) => next == |start.attempts| + n + 1 && (n > 0 ==> Retried(answers[n - 1]))
       case Inserting(rows) =>
         && n > 0 && Answered(answers[n - 1]) && answers[n - 1].rows == Some(rows)
         && |start.attempts| + n - 1 <= l.maxRetries
       case Absent => n > 0 && !Retried(answers[n - 1]) && !Answered(answers[n - 1])
       case Completing => false
  }

  lemma {:induction false} NothingCalled(l: Limits, start: Batch, answers: seq<Event>)
    requires start.process == Looping(|start.attempts| + 1) && !start.completed
    requires forall i :: 0 <= i < |answers| ==> answers[i].Call?
    ensures Called(l, start, start, answers, 0)
  {
  }

  lemma {:induction false} CalledOnce(l: Limits, start: Batch, b: Batch, answers: seq<Event>, n: nat)
    requires n < |answers| && forall i :: 0 <= i < |answers| ==> answers[i].Call?
    requires Called(l, start, b, answers, n) && Possible(l, start, answers[n])
    requires b.process.Looping? && b.process.next <= l.maxRetries + 1
    ensures Called(l, start, Step(l, b, answers[n]), answers, n + 1)
  {
    var e := answers[n];
    assert Possible(l, b, e);
    var attempt := Attempt(|start.attempts| + n + 1, e.error, e.status, e.rows);
    assert Calls(answers[..n + 1], |start.attempts|) == Calls(answers[..n], |start.attempts|) + [attempt];
  }

  lemma {:induction false} NoCalls(before: nat)
    ensures Calls([], before) == []
  {
  }

  /** How an execution starts from what is stored. */
  lemma {:induction false} Resumed(l: Limits, b: Batch)
    requires Inv(l, b) && b.process.Absent?
    ensures Run(l, b, []) == b
    ensures b.attempts != [] ==> b.attempts[|b.attempts| - 1].number == |b.attempts|
    ensures b.scores > 0 ==>
      LatestAnswers(b.attempts, b.scores) && LatestUsable(b) && b.attempts[|b.attempts| - 1].rows.value == b.scores
    ensures LatestUsable(b) ==> LatestAnswers(b.attempts, b.attempts[|b.attempts| - 1].rows.value)
    ensures !b.completed ==> Run(l, b, [Resume]) == Started(b)
  {
    RunAppended(l, b, [], Resume);
    assert [Resume] == [] + [Resume];
  }

  /** What a batch that is not completed goes on with. */
  function Started(b: Batch): Batch {
    if b.scores == b.tagCount then b.(process := Completing)
    else if LatestUsable(b) then b.(process := Inserting(b.attempts[|b.attempts| - 1].rows.value))
    else if LatestFatal(b) then b
    else b.(process := Looping(|b.attempts| + 1))
  }

  lemma {:induction false} Ends(l: Limits, start: Batch, history: seq<Event>)
    ensures
      var b := Run(l, start, history);
      && Run(l, start, history + [Crash]) == b.(process := Absent)
      && (b.process.Completing? ==>
            Run(l, start, history + [Complete]) == b.(completed := true, process := Absent))
  {
    RunAppended(l, start, history, Crash);
    RunAppended(l, start, history, Complete);
  }

  /** The loop ends with a valid answer iff it gets one in time. */
  lemma {:induction false} CalledUntil(l: Limits, start: Batch, b: Batch, answers: seq<Event>, n: nat)
    requires n <= |answers| && forall i :: 0 <= i < |answers| ==> answers[i].Call? && Possible(l, start, answers[i])
    requires Called(l, start, b, answers, n)
    requires b.process.Looping? ==> b.process.next > l.maxRetries + 1 || n == |answers|
    ensures b.process.Inserting? <==> GetsAnswer(l, |start.attempts|, answers)
    ensures b.process.Inserting? ==> LatestAnswers(b.attempts, b.process.rows)
    ensures b.tagCount == start.tagCount && b.scores == start.scores && !b.completed && !b.process.Completing?
    ensures b.attempts == start.attempts + Calls(answers[..n], |start.attempts|)
    ensures forall j :: 0 <= j < n - 1 ==> Retried(answers[j])
  {
    if GetsAnswer(l, |start.attempts|, answers) {
      var k :| 0 <= k < |answers| && Answered(answers[k]) && |start.attempts| + k <= l.maxRetries &&
        forall j :: 0 <= j < k ==> Retried(answers[j]);
    }
  }

  /** The loop over attempts. */
  method CallProvider(l: Limits, start: Batch, answers: seq<Event>)
      returns (b: Batch, n: nat, ghost history: seq<Event>)
    requires start.process == Looping(|start.attempts| + 1) && !start.completed
    requires forall i :: 0 <= i < |answers| ==> answers[i].Call? && Possible(l, start, answers[i])
    ensures b == Run(l, start, history)
    ensures b.process.Inserting? || b.process.Absent?
    ensures b.process.Inserting? <==> GetsAnswer(l, |start.attempts|, answers)
    ensures b.process.Inserting? ==> LatestAnswers(b.attempts, b.process.rows)
    ensures b.scores == start.scores && !b.completed
    ensures n <= |answers| && b.attempts == start.attempts + Calls(answers[..n], |start.attempts|)
    ensures forall j :: 0 <= j < n - 1 ==> Retried(answers[j])
  {
    b, n, history := start, 0, [];
    NothingCalled(l, start, answers);
    while b.process.Looping? && b.process.next <= MaxAttempts(l) && n < |answers|
      invariant n <= |answers| && b == Run(l, start, history) && Called(l, start, b, answers, n)
      decreases |answers| - n
    {
      var a := answers[n];
      CalledOnce(l, start, b, answers, n);
      RunAppended(l, start, history, a);
      history := history + [a];
      assert Possible(l, b, a);
      hide Called, Calls;
      b := b.(attempts := b.attempts + [Attempt(b.process.next, a.error, a.status, a.rows)],
              process := if a.error.Fatal? then Absent
                         else if a.error.Retryable? || a.rows.None? then Looping(b.process.next + 1)
                         else Inserting(a.rows.value));
      n := n + 1;
    }
    CalledUntil(l, start, b, answers, n);
    if !b.process.Inserting? {
      Ends(l, start, history);
      history := history + [Crash];
      b := b.(process := Absent);
    }
  }

  /** One transaction; a row of a tag that is scored already makes it fail. */
  method InsertScores(l: Limits, start: Batch) returns (b: Batch, ok: bool, ghost history: seq<Event>)
    requires start.process.Inserting?
    ensures b == Run(l, start, history)
    ensures ok <==> start.scores == 0 || start.process.rows == 0
    ensures b ==
      if ok then start.(scores := start.scores + start.process.rows, process := Completing)
      else start.(process := Absent)
  {
    RunAppended(l, start, [], Insert);
    history := [Insert];
    if start.scores > 0 && start.process.rows > 0 { return start.(process := Absent), false, history; }
    return start.(scores := start.scores + start.process.rows, process := Completing), true, history;
  }

  lemma {:induction false} RunInParts(l: Limits, b: Batch, before: seq<Event>, after: seq<Event>)
    ensures Run(l, b, before + after) == Run(l, Run(l, b, before), after)
    decreases |before|
  {
    if before == [] {
      assert before + after == after;
    } else {
      assert (before + after)[0] == before[0] && (before + after)[1..] == before[1..] + after;
      hide Step;
      RunInParts(l, Step(l, b, before[0]), before[1..], after);
    }
  }

  /**
   One execution of a batch against the provider's next answers. It is one of the histories above, and
   completes the batch iff that is completed or fully scored already, or not scored at all and has a valid
   answer on record or gets one before the attempts run out. Calls are made one by one, recorded in order,
   and go on only while they are worth repeating.
   */
  method ProcessBatch(l: Limits, start: Batch, answers: seq<Event>)
      returns (b: Batch, ok: bool, n: nat, ghost history: seq<Event>)
    requires start.process.Absent? && Inv(l, start)
    requires forall i :: 0 <= i < |answers| ==> answers[i].Call? && Possible(l, start, answers[i])
    ensures b == Run(l, start, history) && b.process.Absent?
    ensures (ok <==> b.completed) && (ok <==> Completes(l, start, answers))
    ensures n <= |answers| && b.attempts == start.attempts + Calls(answers[..n], |start.attempts|)
    ensures forall j :: 0 <= j < n - 1 ==> Retried(answers[j])
    ensures start.completed || start.scores == start.tagCount || LatestUsable(start) || LatestFatal(start) ==> n == 0
    ensures ok && !start.completed && start.scores != start.tagCount ==> LatestAnswers(b.attempts, b.scores)
  {
    Resumed(l, start);
    hide Called, Calls, GetsAnswer, Retried, LatestAnswers, Inv, Numbered, Run, Step;
    b := start;
    n, history := 0, [];
    assert start.attempts + Calls(answers[..0], |start.attempts|) == start.attempts by { NoCalls(|start.attempts|); }
    if b.completed { return b, true, 0, []; }
    history := [Resume];
    if b.scores == b.tagCount {
      b := b.(process := Completing);
    } else {
      var base := 1;
      var rows: Option<nat> := None;
      if b.attempts != [] {
        var latest := b.attempts[|b.attempts| - 1];
        if latest.status.Successful? && latest.rows.Some? {
          rows := latest.rows;
        } else if latest.status.FatalStatus? {
          return b, false, n, history;
        }
        base := latest.number + 1;
      }
      b := b.(process := if rows.Some? then Inserting(rows.value) else Looping(base));
      if rows.None? {
        ghost var calls: seq<Event>;
        b, n, calls := CallProvider(l, b, answers);
        RunInParts(l, start, history, calls);
        history := history + calls;
        if !b.process.Inserting? { return b, false, n, history; }
      }
      ghost var inserted: seq<Event>;
      b, ok, inserted := InsertScores(l, b);
      RunInParts(l, start, history, inserted);
      history := history + inserted;
      if !ok { return b, false, n, history; }
    }
    Ends(l, start, history);
    history := history + [Complete];
    b := b.(completed := true, process := Absent);
    ok := true;
  }

  // ---------------------------------------------------------------- the final count check

  function Expected(batches: seq<Batch>): nat {
    if batches == [] then 0 else Expected(batches[..|batches| - 1]) + batches[|batches| - 1].tagCount
  }

  function Actual(batches: seq<Batch>): nat {
    if batches == [] then 0 else Actual(batches[..|batches| - 1]) + batches[|batches| - 1].scores
  }

  /** The test at the end of a run, on the totals over its batches. */
  method FinalCheck(batches: seq<Batch>, l: Limits) returns (ok: bool)
    ensures ok <==> 0 <= Expected(batches) - Actual(batches) <= l.maxMissing * |batches|
  {
    var totalExpected, totalActual := 0, 0;
    for i := 0 to |batches|
      invariant totalExpected == Expected(batches[..i]) && totalActual == Actual(batches[..i])
    {
      assert batches[..i + 1][..i] == batches[..i];
      totalExpected := totalExpected + batches[i].tagCount;
      totalActual := totalActual + batches[i].scores;
    }
    assert batches[..|batches|] == batches;
    var maxMissingTotal := l.maxMissing * |batches|;
    var missingTotal := totalExpected - totalActual;
    ok := !(missingTotal < 0 || missingTotal > maxMissingTotal);
  }

  /** Once every batch of a run has completed, whatever happened on the way, the check cannot fail. */
  lemma {:induction false} FinalCheckCannotFail(l: Limits, histories: seq<seq<Event>>, tagCounts: seq<nat>,
      batches: seq<Batch>)
    requires |histories| == |tagCounts| == |batches|
    requires forall i ::
      0 <= i < |batches| ==> batches[i] == Run(l, Fresh(tagCounts[i]), histories[i]) && batches[i].completed
    ensures 0 <= Expected(batches) - Actual(batches) <= l.maxMissing * |batches|
    decreases |batches|
  {
    if batches != [] {
      var n := |batches| - 1;
      FinalCheckCannotFail(l, histories[..n], tagCounts[..n], batches[..n]);
      RunKeepsInv(l, Fresh(tagCounts[n]), histories[n]);
      assert Enough(l, batches[n], batches[n].scores);
      assert l.maxMissing * |batches| == l.maxMissing * n + l.maxMissing;
    }
  }

  // ---------------------------------------------------------------- can an interrupted batch still complete

  /** What an operator sees between two executions of a batch that is not completed. */
  predicate Resumable(l: Limits, b: Batch) {
    b.completed || b.scores == b.tagCount ||
    (b.scores == 0 &&
     (if b.attempts == [] then l.maxRetries >= 0
      else
        var latest := b.attempts[|b.attempts| - 1];
        (latest.status.Successful? && latest.rows.Some?) ||
        (!latest.status.FatalStatus? && |b.attempts| <= l.maxRetries)))
  }

  /** Resuming a batch that is not resumable gets nowhere: its rows collide, or no attempt is left. */
  predicate Hopeless(l: Limits, b: Batch) {
    && !b.completed && b.scores != b.tagCount
    && match b.process
       case Absent => !Resumable(l, b)
       case Looping(next) => next > MaxAttempts(l) && !Resumable(l, b)
       case Inserting(rows) => b.scores > 0 && rows > 0
       case Completing => false
  }

  lemma {:induction false} HopelessStays(l: Limits, b: Batch, e: Event)
    requires Inv(l, b) && Hopeless(l, b)
    ensures Hopeless(l, Step(l, b, e))
  {
  }

  lemma {:induction false} HopelessForever(l: Limits, b: Batch, es: seq<Event>)
    requires Inv(l, b) && Hopeless(l, b)
    ensures !Run(l, b, es).completed
    decreases |es|
  {
    if es != [] {
      StepKeepsInv(l, b, es[0]);
      HopelessStays(l, b, es[0]);
      hide Step, Inv;
      HopelessForever(l, Step(l, b, es[0]), es[1..]);
    }
  }

  /** The steps that complete a resumable batch: at most one more call, answered in full. */
  function Recovery(b: Batch): seq<Event> {
    if b.completed then []
    else if b.scores == b.tagCount then [Resume, Complete]
    else if b.attempts != [] && b.attempts[|b.attempts| - 1].status.Successful? &&
      b.attempts[|b.attempts| - 1].rows.Some? then
      [Resume, Insert, Complete]
    else [Resume, Call(NoError, Successful, Some(b.tagCount)), Insert, Complete]
  }

  lemma {:induction false} RecoveryCompletes(l: Limits, b: Batch)
    requires Inv(l, b) && b.process.Absent? && Resumable(l, b)
    ensures Run(l, b, Recovery(b)).completed
  {
    var es := Recovery(b);
    if es != [] {
      var b1 := Step(l, b, es[0]);
      var b2 := Step(l, b1, es[1]);
      assert es[1..][1..] == es[2..];
      assert Run(l, b, es) == Run(l, b1, es[1..]) == Run(l, b2, es[2..]);
      if |es| == 2 {
        assert es[2..] == [];
      } else {
        var b3 := Step(l, b2, es[2]);
        assert es[2..][1..] == es[3..];
        assert Run(l, b2, es[2..]) == Run(l, b3, es[3..]);
        if |es| == 3 {
          assert es[3..] == [];
        } else {
          assert es[3..][1..] == [];
          assert Run(l, b3, es[3..]) == Run(l, Step(l, b3, es[3]), []);
        }
      }
    }
  }

  /**
   A batch left behind by any history can still be completed iff it is resumable: in particular it
   cannot once some but not all of its tags are scored, for its rows are inserted again and collide.
   */
  lemma {:induction false} CompletableIff(l: Limits, tagCount: nat, history: seq<Event>)
    requires Run(l, Fresh(tagCount), history).process.Absent?
    ensures
      var b := Run(l, Fresh(tagCount), history);
      (exists es :: Run(l, b, es).completed) <==> Resumable(l, b)
  {
    var b := Run(l, Fresh(tagCount), history);
    RunKeepsInv(l, Fresh(tagCount), history);
    if Resumable(l, b) {
      RecoveryCompletes(l, b);
    } else {
      forall es: seq<Event>
        ensures !Run(l, b, es).completed
      {
        HopelessForever(l, b, es);
      }
    }
  }

  /** A crash between saving the scores and the completion event, with one tag allowed to be missing. */
  lemma {:induction false} CrashAfterPartialScoresIsFinal()
    ensures
      var l := Limits(3, 1);
      var history := [Resume, Call(NoError, Successful, Some(1)), Insert, Crash];
      var b := Run(l, Fresh(2), history);
      b.process.Absent? && !b.completed && 0 < b.scores < b.tagCount && !Resumable(l, b)
  {
  }
}
