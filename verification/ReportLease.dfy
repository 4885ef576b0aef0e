/**
 Report jobs, their leases and their output files. Workers claim jobs with fresh tokens, write a file
 named after the token, and commit by comparing the token; a cleaner expires reports and reaps files
 nobody refers to. All of them interleave; times are seconds.
 */
module ReportLease {
  import opened Wrappers

  const RETENTION: nat := 24 * 3600
  const ORPHAN_AGE: nat := 24 * 3600
  const PURGE_AGE: nat := 30 * 24 * 3600

  datatype Status = Pending | Processing | Completed | Failed | Expired

  /** An output path is named by the token that wrote it. */
  datatype Job = Job(
    status: Status, token: Option<nat>, leaseEnds: nat, output: Option<nat>, expiresAt: nat, updatedAt: nat)
  {
    predicate Ended() { status.Completed? || status.Failed? || status.Expired? }
  }

  /** A worker whose file is in place remembers when it put it there. */
  datatype Phase = Working | Written(at: nat)

  datatype Worker = Worker(job: nat, phase: Phase)

  /** A cleanup pass: the paths it saw referenced, and the time before which other files are reaped. */
  datatype Cleaner = Cleaner(referenced: set<nat>, before: int)

  datatype State = State(
    now: nat,
    nextToken: nat,
    jobs: map<nat, Job>,
    purged: set<nat>,
    workers: map<nat, Worker>,
    files: map<nat, nat>,
    condemned: set<nat>,
    cleaners: map<nat, Cleaner>)

  /** What became of a database update: an error may hide a commit. */
  datatype Update = Committed | NotCommitted | CommittedWithError

  datatype Event =
    | Tick(elapsed: nat)
    | Create(job: nat)
    | Claim(job: nat, lease: nat)
    | Rename(token: nat)
    | Complete(token: nat, update: Update)
    | Fail(token: nat, update: Update)
    | Crash(token: nat)
    | MarkExpired(job: nat)
    | RemoveExpired(token: nat)
    | Survey(cleaner: nat, started: nat)
    | Reap(cleaner: nat, token: nat)
    | Purge(job: nat)

  /** Compare-and-update on the lease token. */
  predicate Holds(s: State, token: nat) {
    token in s.workers && s.workers[token].job in s.jobs && s.jobs[s.workers[token].job].token == Some(token)
  }

  function Leave(s: State, token: nat): State {
    s.(workers := s.workers - {token})
  }

  function Drop(s: State, token: nat): State {
    s.(files := s.files - {token})
  }

  function Finish(s: State, token: nat, job: Job): State
    requires token in s.workers
  {
    s.(jobs := s.jobs[s.workers[token].job := job])
  }

  predicate Claimable(j: Job, now: nat) {
    j.status.Pending? || (j.status.Processing? && j.leaseEnds < now)
  }

  function Referenced(jobs: map<nat, Job>): set<nat> {
    set id | id in jobs && jobs[id].status.Completed? && jobs[id].output.Some? :: jobs[id].output.value
  }

  function Step(s: State, e: Event): (r: State) {
    match e
    case Tick(elapsed) => s.(now := s.now + elapsed)
    case Create(id) =>
      if id in s.jobs || id in s.purged then s else s.(jobs := s.jobs[id := Job(Pending, None, 0, None, 0, s.now)])
    case Claim(id, lease) =>
      if id !in s.jobs || !Claimable(s.jobs[id], s.now) then s
      else
        s.(jobs := s.jobs[id := s.jobs[id].(
            status := Processing, token := Some(s.nextToken), leaseEnds := s.now + lease, updatedAt := s.now)],
           workers := s.workers[s.nextToken := Worker(id, Working)], nextToken := s.nextToken + 1)
    case Rename(token) =>
      if token !in s.workers || !s.workers[token].phase.Working? then s
      else s.(files := s.files[token := s.now],
              workers := s.workers[token := Worker(s.workers[token].job, Written(s.now))])
    case Complete(token, update) =>
      if token !in s.workers || !s.workers[token].phase.Written? then s
      else if update.NotCommitted? || !Holds(s, token) then Leave(Drop(s, token), token)
      else
        var s' := Finish(s, token, Job(Completed, None, 0, Some(token), s.now + RETENTION, s.now));
        if update.Committed? then Leave(s', token) else Leave(Drop(s', token), token)
    case Fail(token, update) =>
      if token !in s.workers || !s.workers[token].phase.Working? then s
      else if update.NotCommitted? || !Holds(s, token) then Leave(s, token)
      else Leave(Finish(s, token, Job(Failed, None, 0, None, 0, s.now)), token)
    case Crash(token) => Leave(s, token)
    case MarkExpired(id) =>
      if id !in s.jobs || !s.jobs[id].status.Completed? || s.jobs[id].output.None? || s.jobs[id].expiresAt > s.now
        then s
      else
        s.(jobs := s.jobs[id := s.jobs[id].(status := Expired, output := None, updatedAt := s.now)],
           condemned := s.condemned + {s.jobs[id].output.value})
    case RemoveExpired(token) => if token in s.condemned then Drop(s, token) else s
    case Survey(cleaner, started) =>
      if started > s.now then s
      else s.(cleaners := s.cleaners[cleaner := Cleaner(Referenced(s.jobs), started - ORPHAN_AGE)])
    case Reap(cleaner, token) =>
      if cleaner in s.cleaners && token in s.files && s.files[token] < s.cleaners[cleaner].before &&
         token !in s.cleaners[cleaner].referenced
      then Drop(s, token) else s
    case Purge(id) =>
      if id in s.jobs && (s.jobs[id].status.Failed? || s.jobs[id].status.Expired?) &&
         s.jobs[id].updatedAt + PURGE_AGE < s.now
      then s.(jobs := s.jobs - {id}, purged := s.purged + {id}) else s
  }

  function Run(s: State, es: seq<Event>): (r: State)
    decreases |es|
  {
    if es == [] then s else Run(Step(s, es[0]), es[1..])
  }

  const IDLE := State(0, 0, map[], {}, map[], map[], {}, map[])

  /** The two assumptions: an update that reports an error did not commit, and a file is committed within a day. */
  predicate Assumed(s: State, e: Event) {
    && (e.Complete? || e.Fail? ==> !e.update.CommittedWithError?)
    && (e.Complete? && e.token in s.workers && s.workers[e.token].phase.Written? ==>
          s.now < s.workers[e.token].phase.at + ORPHAN_AGE)
  }

  predicate AllAssumed(s: State, es: seq<Event>)
    decreases |es|
  {
    es == [] || (Assumed(s, es[0]) && AllAssumed(Step(s, es[0]), es[1..]))
  }

  // ---------------------------------------------------------------- what every interleaving keeps

  /** A completed job refers to a file that exists and that nobody else may remove. */
  predicate JobFits(s: State, j: Job) {
    && (j.status.Processing? <==> j.token.Some?)
    && (j.status.Completed? <==> j.output.Some?)
    && (j.output.Some? ==>
          var token := j.output.value;
          && token in s.files && token < s.nextToken && token !in s.workers && token !in s.condemned
          && forall c ::
            c in s.cleaners ==> token in s.cleaners[c].referenced || s.files[token] >= s.cleaners[c].before)
  }

  /** A worker's file is there for a day after it was put there. */
  predicate WorkerFits(s: State, token: nat)
    requires token in s.workers
  {
    var phase := s.workers[token].phase;
    && token < s.nextToken && token !in s.condemned
    && (phase.Written? ==>
      phase.at <= s.now && (s.now < phase.at + ORPHAN_AGE ==> token in s.files && s.files[token] == phase.at))
  }

  ghost predicate Inv(s: State) {
    && (forall id :: id in s.jobs ==> JobFits(s, s.jobs[id]))
    && (forall a, b :: a in s.jobs && b in s.jobs && a != b && s.jobs[a].output.Some? ==>
      s.jobs[a].output != s.jobs[b].output)
    && (forall token :: token in s.workers ==> WorkerFits(s, token))
    && (forall token :: token in s.condemned ==> token < s.nextToken)
    && (forall c :: c in s.cleaners ==> s.cleaners[c].before + ORPHAN_AGE <= s.now)
  }

  /** Removing a file that no completed job refers to, and no fresh file of a worker, harms nobody. */
  lemma {:induction false} DropKeepsInv(s: State, token: nat)
    requires Inv(s) && forall id :: id in s.jobs ==> s.jobs[id].output != Some(token)
    requires token in s.workers && s.workers[token].phase.Written? ==> s.now >= s.workers[token].phase.at + ORPHAN_AGE
    ensures Inv(Drop(s, token))
  {
  }

  lemma {:induction false} LeaveKeepsInv(s: State, token: nat)
    requires Inv(s)
    ensures Inv(Leave(s, token))
  {
  }

  /** A job that got no output may change freely among the other statuses. */
  lemma {:induction false} QuietJobKeepsInv(s: State, id: nat, j: Job)
    requires Inv(s) && j.output.None? && JobFits(s, j)
    ensures Inv(s.(jobs := s.jobs[id := j]))
  {
  }

  lemma {:induction false} CommitKeepsInv(s: State, token: nat)
    requires Inv(s) && Holds(s, token) && s.workers[token].phase.Written? &&
      s.now < s.workers[token].phase.at + ORPHAN_AGE
    ensures Inv(Leave(Finish(s, token, Job(Completed, None, 0, Some(token), s.now + RETENTION, s.now)), token))
  {
  }

  lemma {:induction false} ClaimKeepsInv(s: State, e: Event)
    requires Inv(s) && e.Claim?
    ensures Inv(Step(s, e))
  {
    var r := Step(s, e);
    forall id | id in r.jobs
      ensures JobFits(r, r.jobs[id])
    {
      assert JobFits(s, s.jobs[id]);
    }
    forall t | t in r.workers
      ensures WorkerFits(r, t)
    {
      assert t in s.workers ==> WorkerFits(s, t);
    }
  }

  lemma {:induction false} ExpiryKeepsInv(s: State, e: Event)
    requires Inv(s) && e.MarkExpired?
    ensures Inv(Step(s, e))
  {
    var r := Step(s, e);
    assert e.job in s.jobs ==> JobFits(s, s.jobs[e.job]);
    forall id | id in r.jobs
      ensures JobFits(r, r.jobs[id])
    {
      assert JobFits(s, s.jobs[id]);
    }
    forall t | t in r.workers
      ensures WorkerFits(r, t)
    {
      assert WorkerFits(s, t);
    }
  }

  lemma {:induction false} PurgeKeepsInv(s: State, id: nat)
    requires Inv(s)
    ensures Inv(Step(s, Purge(id)))
  {
  }

  /** Time passing, renamed files and surveys. */
  lemma {:induction false} WorldKeepsInv(s: State, e: Event)
    requires Inv(s) && (e.Tick? || e.Rename? || e.Survey?)
    ensures Inv(Step(s, e))
  {
    var r := Step(s, e);
    forall id | id in r.jobs
      ensures JobFits(r, r.jobs[id])
    {
      assert JobFits(s, s.jobs[id]);
    }
    forall t | t in r.workers
      ensures WorkerFits(r, t)
    {
      assert WorkerFits(s, t);
    }
  }

  lemma {:induction false} StepKeepsInv(s: State, e: Event)
    requires Inv(s) && Assumed(s, e)
    ensures Inv(Step(s, e))
  {
    hide Inv, WorkerFits, Referenced;
    match e
    case Create(id) =>
      if id !in s.jobs && id !in s.purged { QuietJobKeepsInv(s, id, Job(Pending, None, 0, None, 0, s.now)); }
    case Complete(token, update) =>
      if token in s.workers && s.workers[token].phase.Written? {
        if update.NotCommitted? || !Holds(s, token) {
          WorkerIsNoOutput(s, token);
          LeaveKeepsInv(s, token);
          DropKeepsInv(Leave(s, token), token);
          assert Leave(Drop(s, token), token) == Drop(Leave(s, token), token);
        } else {
          CommitKeepsInv(s, token);
        }
      }
    case Fail(token, update) =>
      if token in s.workers && s.workers[token].phase.Working? {
        if update.NotCommitted? || !Holds(s, token) {
          LeaveKeepsInv(s, token);
        } else {
          QuietJobKeepsInv(s, s.workers[token].job, Job(Failed, None, 0, None, 0, s.now));
          LeaveKeepsInv(Finish(s, token, Job(Failed, None, 0, None, 0, s.now)), token);
        }
      }
    case Crash(token) => LeaveKeepsInv(s, token);
    case RemoveExpired(token) =>
      if token in s.condemned {
        CondemnedIsFree(s, token);
        DropKeepsInv(s, token);
      }
    case Reap(cleaner, token) =>
      if Step(s, e) != s {
        ReapedIsFree(s, cleaner, token);
        DropKeepsInv(s, token);
      }
    case Claim(_, _) => ClaimKeepsInv(s, e);
    case Purge(id) => PurgeKeepsInv(s, id);
    case MarkExpired(_) => ExpiryKeepsInv(s, e);
    case _ => WorldKeepsInv(s, e);
  }

  lemma {:induction false} WorkerIsNoOutput(s: State, token: nat)
    requires Inv(s) && token in s.workers
    ensures forall id :: id in s.jobs ==> s.jobs[id].output != Some(token)
  {
  }

  lemma {:induction false} CondemnedIsFree(s: State, token: nat)
    requires Inv(s) && token in s.condemned
    ensures token !in s.workers && forall id :: id in s.jobs ==> s.jobs[id].output != Some(token)
  {
  }

  lemma {:induction false} ReapedIsFree(s: State, cleaner: nat, token: nat)
    requires Inv(s) && cleaner in s.cleaners && token in s.files
    requires s.files[token] < s.cleaners[cleaner].before && token !in s.cleaners[cleaner].referenced
    ensures forall id :: id in s.jobs ==> s.jobs[id].output != Some(token)
    ensures token in s.workers && s.workers[token].phase.Written? ==> s.now >= s.workers[token].phase.at + ORPHAN_AGE
  {
  }

  lemma {:induction false} RunKeepsInv(s: State, es: seq<Event>)
    requires Inv(s) && AllAssumed(s, es)
    ensures Inv(Run(s, es))
    decreases |es|
  {
    if es != [] {
      StepKeepsInv(s, es[0]);
      hide Step, Inv, Assumed;
      RunKeepsInv(Step(s, es[0]), es[1..]);
    }
  }

  // ---------------------------------------------------------------- what the protocol promises

  /** In every interleaving a completed job's file exists until the job is marked expired. */
  lemma {:induction false} CompletedOutputExists(es: seq<Event>, id: nat)
    requires AllAssumed(IDLE, es)
    requires var s := Run(IDLE, es); id in s.jobs && s.jobs[id].status.Completed?
    ensures var s := Run(IDLE, es); s.jobs[id].output.Some? && s.jobs[id].output.value in s.files
  {
    RunKeepsInv(IDLE, es);
    hide Run, AllAssumed;
    assert JobFits(Run(IDLE, es), Run(IDLE, es).jobs[id]);
  }

  predicate TokenFits(s: State, j: Job) {
    (j.status.Processing? <==> j.token.Some?) && (j.token.Some? ==> j.token.value < s.nextToken)
  }

  /** Exactly the jobs in work have a token, all tokens are old ones, and a purged job is gone. */
  predicate Leased(s: State) {
    && (forall id :: id in s.jobs ==> TokenFits(s, s.jobs[id]))
    && (forall token :: token in s.workers ==> token < s.nextToken)
    && (forall id :: id in s.purged ==> id !in s.jobs)
  }

  lemma {:induction false} StepKeepsToken(s: State, e: Event, id: nat)
    requires (id in s.jobs ==> TokenFits(s, s.jobs[id])) && id in Step(s, e).jobs
    ensures TokenFits(Step(s, e), Step(s, e).jobs[id])
  {
  }

  lemma {:induction false} StepKeepsWorker(s: State, e: Event, token: nat)
    requires (token in s.workers ==> token < s.nextToken) && token in Step(s, e).workers
    ensures token < Step(s, e).nextToken
  {
  }

  lemma {:induction false} StepKeepsPurged(s: State, e: Event, id: nat)
    requires (id in s.purged ==> id !in s.jobs) && id in Step(s, e).purged
    ensures id !in Step(s, e).jobs
  {
  }

  lemma {:induction false} StepKeepsLeased(s: State, e: Event)
    requires Leased(s)
    ensures Leased(Step(s, e)) && s.nextToken <= Step(s, e).nextToken
  {
    var t := Step(s, e);
    assert s.nextToken <= t.nextToken;
    hide Step, TokenFits;
    forall id | id in t.jobs
      ensures TokenFits(t, t.jobs[id])
    {
      StepKeepsToken(s, e, id);
    }
    forall token | token in t.workers
      ensures token < t.nextToken
    {
      StepKeepsWorker(s, e, token);
    }
    forall id | id in t.purged
      ensures id !in t.jobs
    {
      StepKeepsPurged(s, e, id);
    }
  }

  lemma {:induction false} RunKeepsLeased(s: State, es: seq<Event>)
    requires Leased(s)
    ensures Leased(Run(s, es)) && s.nextToken <= Run(s, es).nextToken
    decreases |es|
  {
    hide Leased, Step;
    if es != [] {
      StepKeepsLeased(s, es[0]);
      RunKeepsLeased(Step(s, es[0]), es[1..]);
    }
  }

  /** One event more. */
  lemma {:induction false} RunSnoc(s: State, es: seq<Event>, e: Event)
    ensures Run(s, es + [e]) == Step(Run(s, es), e)
    decreases |es|
  {
    hide Step;
    if es == [] {
      assert [] + [e] == [e] && [e][1..] == [];
    } else {
      assert (es + [e])[0] == es[0] && (es + [e])[1..] == es[1..] + [e];
      RunSnoc(Step(s, es[0]), es[1..], e);
    }
  }

  /** The event is by the job's worker, who holds the job's lease at that moment, and ends the job. */
  predicate EndsIt(s: State, e: Event, id: nat) {
    (e.Complete? || e.Fail?) && Holds(s, e.token) && s.workers[e.token].job == id && s.jobs[id].status.Processing?
  }

  lemma {:induction false} StepEndsIt(s: State, e: Event, id: nat)
    requires Leased(s) && id in Step(s, e).jobs && Step(s, e).jobs[id].Ended()
    ensures (id in s.jobs && s.jobs[id].Ended()) || EndsIt(s, e, id)
  {
  }

  /** In any interleaving every job that ended was ended, at some moment, by the holder of its current token. */
  lemma {:induction false} OnlyTheHolderEndsAJob(es: seq<Event>, id: nat)
    requires id in Run(IDLE, es).jobs && Run(IDLE, es).jobs[id].Ended()
    ensures exists k :: 0 <= k < |es| && EndsIt(Run(IDLE, es[..k]), es[k], id)
    decreases |es|
  {
    hide Step, Leased, EndsIt;
    if es != [] {
      var before, e := es[..|es| - 1], es[|es| - 1];
      assert es == before + [e];
      RunSnoc(IDLE, before, e);
      assert Leased(IDLE) by { IdleIsLeased(); }
      RunKeepsLeased(IDLE, before);
      hide Run;
      StepEndsIt(Run(IDLE, before), e, id);
      if EndsIt(Run(IDLE, before), e, id) {
        assert es[..|es| - 1] == before;
      } else {
        OnlyTheHolderEndsAJob(before, id);
        var k :| 0 <= k < |before| && EndsIt(Run(IDLE, before[..k]), before[k], id);
        assert before[..k] == es[..k] && before[k] == es[k];
      }
    }
  }

  lemma {:induction false} IdleIsLeased()
    ensures Leased(IDLE)
  {
  }

  /** Ended, or already purged. */
  predicate Over(s: State, id: nat) {
    (id in s.jobs && s.jobs[id].Ended()) || id in s.purged
  }

  /** From one state to a later one a job that is over may only have expired after completing, and been purged. */
  predicate Ages(s: State, t: State, id: nat) {
    && Over(t, id) && (id in s.purged ==> id in t.purged)
    && (id in s.jobs && id in t.jobs ==>
          t.jobs[id] == s.jobs[id] || (s.jobs[id].status.Completed? && t.jobs[id].status.Expired?))
  }

  lemma {:induction false} StepAges(s: State, e: Event, id: nat)
    requires Leased(s) && Over(s, id)
    ensures Ages(s, Step(s, e), id)
  {
  }

  /** A job that ended is never worked on again: it stays as it is, but for expiring and being purged. */
  lemma {:induction false} EndedJobsStayEnded(s: State, es: seq<Event>, id: nat)
    requires Leased(s) && Over(s, id)
    ensures Ages(s, Run(s, es), id)
    decreases |es|
  {
    hide Step, Leased;
    if es != [] {
      var t := Step(s, es[0]);
      StepKeepsLeased(s, es[0]);
      StepAges(s, es[0], id);
      EndedJobsStayEnded(t, es[1..], id);
      RunKeepsLeased(t, es[1..]);
      if id in Run(t, es[1..]).purged { PurgedIsGone(Run(t, es[1..]), id); }
    }
  }

  lemma {:induction false} PurgedIsGone(s: State, id: nat)
    requires Leased(s) && id in s.purged
    ensures id !in s.jobs
  {
  }

  lemma {:induction false} LossIsKept(s: State, e: Event, token: nat)
    requires Leased(s) && token < s.nextToken && !Holds(s, token)
    ensures !Holds(Step(s, e), token)
  {
  }

  /** A lost lease is never regained. */
  lemma {:induction false} LostForGood(s: State, es: seq<Event>, token: nat)
    requires Leased(s) && token < s.nextToken && !Holds(s, token)
    ensures !Holds(Run(s, es), token)
    decreases |es|
  {
    hide Step, Leased, Holds;
    if es != [] {
      StepKeepsLeased(s, es[0]);
      LossIsKept(s, es[0], token);
      LostForGood(Step(s, es[0]), es[1..], token);
    }
  }

  /**
   Once a worker has lost its lease, nothing that it still does in any continuation changes a job, or
   removes a file that is not its own.
   */
  lemma {:induction false} LoserTouchesOnlyItsOwn(s: State, es: seq<Event>, k: nat, token: nat)
    requires Leased(s) && token < s.nextToken && !Holds(s, token)
    requires k < |es| && (es[k].Complete? || es[k].Fail?) && es[k].token == token
    ensures
      var before := Run(s, es[..k]);
      var after := Step(before, es[k]);
      && after.jobs == before.jobs
      && forall other :: other in before.files && other != token ==>
           other in after.files && after.files[other] == before.files[other]
  {
    LostForGood(s, es[..k], token);
    hide Run;
  }

  /**
   A worker that nobody interrupts completes any claimable job, within the assumptions iff it commits less
   than a day after writing its file; the file is then there, and the report is kept for a day.
   */
  lemma {:induction false} PromptWorkerCompletes(s: State, id: nat, lease: nat, elapsed: nat)
    requires Inv(s) && id in s.jobs && Claimable(s.jobs[id], s.now)
    ensures
      var token := s.nextToken;
      var w := Step(Step(Step(s, Claim(id, lease)), Rename(token)), Tick(elapsed));
      var t := Step(w, Complete(token, Committed));
      && (Assumed(w, Complete(token, Committed)) <==> elapsed < 86_400)
      && id in t.jobs
      && t.jobs[id] == Job(Completed, None, 0, Some(token), s.now + elapsed + 86_400, s.now + elapsed)
      && token in t.files && t.workers == s.workers
  {
    var token := s.nextToken;
    assert token in s.workers ==> WorkerFits(s, token);
    var a := Step(s, Claim(id, lease));
    var b := Step(a, Rename(token));
    var w := Step(b, Tick(elapsed));
    assert w.workers[token] == Worker(id, Written(s.now)) && Holds(w, token);
    assert w.workers - {token} == s.workers;
  }

  /** A completed report is marked expired iff its day is over, and its file then goes. */
  lemma {:induction false} ExpiredOutputGoes(s: State, id: nat)
    requires Inv(s) && id in s.jobs && s.jobs[id].status.Completed?
    ensures
      var t := Step(s, MarkExpired(id));
      && id in t.jobs && (t.jobs[id].status.Expired? <==> s.jobs[id].expiresAt <= s.now)
      && s.jobs[id].output.Some?
      && (t.jobs[id].status.Expired? ==>
        t.jobs[id].output.None? && s.jobs[id].output.value !in Step(t, RemoveExpired(s.jobs[id].output.value)).files)
  {
    assert JobFits(s, s.jobs[id]);
  }

  /** A worker's failure ends its job as failed, without a file, iff it still holds the lease. */
  lemma {:induction false} FailureEffect(s: State, token: nat, update: Update)
    requires token in s.workers && s.workers[token].phase.Working?
    ensures
      var t, id := Step(s, Fail(token, update)), s.workers[token].job;
      && t.files == s.files && token !in t.workers
      && (if update != NotCommitted && id in s.jobs && s.jobs[id].token == Some(token) then
            && id in t.jobs && t.jobs == s.jobs[id := t.jobs[id]]
            && t.jobs[id].status == Failed && t.jobs[id].token == None && t.jobs[id].output == None
            && t.jobs[id].updatedAt == s.now
          else t.jobs == s.jobs)
  {
  }

  /** A pass removes a file iff it was written more than a day before the pass and no completed job refers to it. */
  lemma {:induction false} ReapedIff(s: State, cleaner: nat, started: nat, token: nat)
    requires started <= s.now && token in s.files
    ensures
      var t := Step(Step(s, Survey(cleaner, started)), Reap(cleaner, token));
      && (token !in t.files <==>
            && s.files[token] + 86_400 < started
            && forall id :: id in s.jobs ==> s.jobs[id].status != Completed || s.jobs[id].output != Some(token))
      && t.jobs == s.jobs && t.files - {token} == s.files - {token}
  {
  }

  /** A job is purged iff it failed or expired more than thirty days ago. */
  lemma {:induction false} PurgedIff(s: State, id: nat)
    requires id in s.jobs
    ensures
      var t := Step(s, Purge(id));
      && (id !in t.jobs <==>
            (s.jobs[id].status == Failed || s.jobs[id].status == Expired) && s.jobs[id].updatedAt + 2_592_000 < s.now)
      && t.jobs - {id} == s.jobs - {id} && t.files == s.files && t.workers == s.workers
  {
  }

  // ---------------------------------------------------------------- claiming a job

  /** A claim takes a job iff it is pending, or in work with its lease over by the clock; then with a fresh token. */
  lemma {:induction false} ClaimTakesIff(s: State, id: nat, lease: nat)
    requires Leased(s)
    ensures
      var t := Step(s, Claim(id, lease));
      var free := id in s.jobs &&
        (s.jobs[id].status == Pending || (s.jobs[id].status == Processing && s.jobs[id].leaseEnds < s.now));
      if free then
        && id in t.jobs && t.jobs[id].status == Processing && t.jobs[id].token == Some(s.nextToken)
        && t.jobs[id].leaseEnds == s.now + lease && t.nextToken == s.nextToken + 1
        && Holds(t, s.nextToken) && t.workers[s.nextToken] == Worker(id, Working) && s.nextToken !in s.workers
      else t == s
  {
  }

  lemma {:induction false} ClockRuns(s: State, es: seq<Event>)
    ensures Run(s, es).now >= s.now
    decreases |es|
  {
    if es != [] {
      assert Step(s, es[0]).now >= s.now;
      hide Step;
      ClockRuns(Step(s, es[0]), es[1..]);
    }
  }

  lemma {:induction false} LeaseSurvives(s: State, e: Event, id: nat, token: nat)
    requires Leased(s) && id in s.jobs && s.jobs[id].token == Some(token) && s.now <= s.jobs[id].leaseEnds
    requires !((e.Complete? || e.Fail?) && e.token == token)
    ensures id in Step(s, e).jobs && Step(s, e).jobs[id] == s.jobs[id]
  {
    assert TokenFits(s, s.jobs[id]);
  }

  /**
   Until its lease is over by the clock, a job stays with the worker that claimed it, whatever all others do
   and even if that worker crashes, unless the worker itself ends it.
   */
  lemma {:induction false} LeaseIsKept(s: State, es: seq<Event>, id: nat, token: nat)
    requires Leased(s) && id in s.jobs && s.jobs[id].token == Some(token)
    requires Run(s, es).now <= s.jobs[id].leaseEnds
    requires forall e :: e in es ==> !((e.Complete? || e.Fail?) && e.token == token)
    ensures id in Run(s, es).jobs && Run(s, es).jobs[id] == s.jobs[id]
    decreases |es|
  {
    if es != [] {
      var t := Step(s, es[0]);
      assert es[0] in es && forall e :: e in es[1..] ==> e in es;
      StepKeepsLeased(s, es[0]);
      ClockRuns(s, es);
      hide Step, Leased;
      LeaseSurvives(s, es[0], id, token);
      LeaseIsKept(t, es[1..], id, token);
    }
  }

  /**
   A job whose worker is gone can be completed by a new worker iff the clock has passed its lease by the
   time of the new claim.
   */
  lemma {:induction false} AbandonedJobCompletesIff(s: State, id: nat, wait: nat, lease: nat, elapsed: nat)
    requires Inv(s) && Leased(s) && id in s.jobs && s.jobs[id].status == Processing
    ensures
      var token := s.nextToken;
      var t := Step(Step(s, Tick(wait)), Claim(id, lease));
      var u := Step(Step(Step(t, Rename(token)), Tick(elapsed)), Complete(token, Committed));
      && id in u.jobs
      && (u.jobs[id].status == Completed <==> s.jobs[id].leaseEnds < s.now + wait)
      && (u.jobs[id].status == Completed ==> u.jobs[id].output == Some(token) && token in u.files)
      && (u.jobs[id].status != Completed ==> u.jobs[id] == s.jobs[id])
  {
    var later := Step(s, Tick(wait));
    StepKeepsInv(s, Tick(wait));
    StepKeepsLeased(s, Tick(wait));
    if s.jobs[id].leaseEnds < s.now + wait {
      PromptWorkerCompletes(later, id, lease, elapsed);
    } else {
      assert Step(later, Claim(id, lease)) == later;
      assert s.nextToken !in later.workers;
    }
  }

  // ---------------------------------------------------------------- both assumptions are needed

  /** An update that committed but reported an error makes the worker remove the file of a completed job. */
  lemma {:induction false} HiddenCommitLosesTheFile()
    ensures
      var s := Step(Step(Step(Step(IDLE, Create(1)), Claim(1, 60)), Rename(0)), Complete(0, CommittedWithError));
      1 in s.jobs && s.jobs[1].status.Completed? && s.jobs[1].output == Some(0) && 0 !in s.files
  {
  }

  /** A file committed more than a day after it was written may have been reaped in between. */
  lemma {:induction false} LateCommitLosesTheFile()
    ensures
      var written := Step(Step(Step(IDLE, Create(1)), Claim(1, 200000)), Rename(0));
      var later := Step(written, Tick(ORPHAN_AGE + 1));
      var s := Step(Step(Step(later, Survey(9, later.now)), Reap(9, 0)), Complete(0, Committed));
      1 in s.jobs && s.jobs[1].status.Completed? && s.jobs[1].output == Some(0) && 0 !in s.files
  {
    var claimed := Step(Step(IDLE, Create(1)), Claim(1, 200000));
    var job := Job(Processing, Some(0), 200000, None, 0, 0);
    assert claimed == State(0, 1, map[1 := job], {}, map[0 := Worker(1, Working)], map[], {}, map[]);
    hide *;
    WriteLate(job);
    ReapLate(job);
  }

  lemma {:induction false} WriteLate(job: Job)
    ensures
      var claimed := State(0, 1, map[1 := job], {}, map[0 := Worker(1, Working)], map[], {}, map[]);
      Step(Step(claimed, Rename(0)), Tick(ORPHAN_AGE + 1)) ==
      State(ORPHAN_AGE + 1, 1, map[1 := job], {}, map[0 := Worker(1, Written(0))], map[0 := 0], {}, map[])
  {
  }

  lemma {:induction false} ReapLate(job: Job)
    requires job.token == Some(0) && job.status.Processing?
    ensures
      var later := State(ORPHAN_AGE + 1, 1, map[1 := job], {}, map[0 := Worker(1, Written(0))], map[0 := 0], {}, map[]);
      var s := Step(Step(Step(later, Survey(9, later.now)), Reap(9, 0)), Complete(0, Committed));
      1 in s.jobs && s.jobs[1].status.Completed? && s.jobs[1].output == Some(0) && 0 !in s.files
  {
    var later := State(ORPHAN_AGE + 1, 1, map[1 := job], {}, map[0 := Worker(1, Written(0))], map[0 := 0], {}, map[]);
    var surveyed := Step(later, Survey(9, later.now));
    assert surveyed.cleaners[9] == Cleaner({}, 1);
    var reaped := Step(surveyed, Reap(9, 0));
    assert 0 !in reaped.files && Holds(reaped, 0);
  }
}
