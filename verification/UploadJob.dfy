/**
 The administrator's CSV upload: two passes over one file that must agree, an allocation that is made
 once however often the job is retried, publication in chunks, and the counters of a completed job.
 */
module UploadJob {
  import opened Wrappers

  const CHUNK: nat := 500
  const MAX_ATTEMPTS: nat := 10

  /** A record of the file after its header: unreadable, without a link, with a bad link, or with a link. */
  datatype Record = Unreadable | Blank | Invalid | Link(target: nat)

  // ---------------------------------------------------------------- the two passes

  predicate Clean(records: seq<Record>) {
    forall i :: 0 <= i < |records| ==> !records[i].Unreadable? && !records[i].Invalid?
  }

  /** The links of a file, in order. */
  function Links(records: seq<Record>): (links: seq<nat>)
    ensures |links| <= |records|
  {
    if records == [] then []
    else Links(records[..|records| - 1]) + match records[|records| - 1] case Link(target) => [target] case _ => []
  }

  datatype Inspection = Counts(totalRows: nat, skipped: nat) | BadFile

  /** First pass: counts the rows and the skipped ones, and refuses a file with a bad row. */
  method InspectCsv(records: seq<Record>) returns (r: Inspection)
    ensures r.Counts? <==> Clean(records)
    ensures r.Counts? ==>
      r.totalRows == |records| && r.totalRows - r.skipped == |Links(records)| && r.skipped <= r.totalRows
  {
    var totalRows, skipped := 0, 0;
    for i := 0 to |records|
      invariant totalRows == i && skipped <= i && totalRows - skipped == |Links(records[..i])|
      invariant Clean(records[..i])
    {
      assert records[..i + 1][..i] == records[..i];
      if records[i].Unreadable? {
        return BadFile;
      }
      totalRows := totalRows + 1;
      if records[i].Blank? {
        skipped := skipped + 1;
      } else if records[i].Invalid? {
        return BadFile;
      }
    }
    assert records[..|records|] == records;
    return Counts(totalRows, skipped);
  }

  /** Second pass: collects the links; on a file the first pass accepted it never fails. */
  method CollectLinks(records: seq<Record>) returns (r: Option<seq<nat>>)
    ensures r == if Clean(records) then Some(Links(records)) else None
  {
    var links: seq<nat> := [];
    for i := 0 to |records|
      invariant links == Links(records[..i]) && Clean(records[..i])
    {
      assert records[..i + 1][..i] == records[..i];
      match records[i] {
        case Unreadable => return None;
        case Blank =>
        case Invalid => return None;
        case Link(target) => links := links + [target];
      }
    }
    assert records[..|records|] == records;
    return Some(links);
  }

  // ---------------------------------------------------------------- one attempt

  datatype Status = Pending | Processing | Retrying | Completed | Failed

  datatype Cause =
    | NoCause
    | NoPublisher | BadHeader | NoColumn | BadCsv | NoDatabase | OutOfTokens | DatabaseError | PublishError

  datatype Job = Job(
    status: Status,
    attempts: nat,
    totalRows: nat,
    skipped: nat,
    created: nat,
    published: nat,
    delayMinutes: Option<nat>,
    cause: Cause)

  datatype Allocating = Commits | Errors | Exhausted

  /** What the world does to one attempt. A rival is another worker of the same job committing first. */
  datatype World = World(
    publisher: bool,
    headerReadable: bool,
    columnPresent: bool,
    database: bool,
    lookup: bool,
    rival: bool,
    allocating: Allocating,
    secondLookup: bool,
    thirdLookup: bool,
    persists: bool,
    failingChunk: Option<nat>)

  predicate Permanent(c: Cause) {
    c.BadHeader? || c.NoColumn? || c.BadCsv? || c.NoDatabase? || c.OutOfTokens?
  }

  /** Minutes until the next attempt. */
  function Backoff(attempts: nat): (minutes: nat)
    ensures minutes <= 64
    ensures attempts <= 6 ==> minutes == Power2(attempts)
    ensures attempts >= 6 ==> minutes == 64
  {
    assert Power2(6) == 64;
    PowersGrow(if attempts < 6 then attempts else 6, 6);
    Power2(if attempts < 6 then attempts else 6)
  }

  function Power2(n: nat): nat {
    if n == 0 then 1 else 2 * Power2(n - 1)
  }

  lemma {:induction false} PowersGrow(m: nat, n: nat)
    requires m <= n
    ensures Power2(m) <= Power2(n)
    decreases n
  {
    if m < n {
      PowersGrow(m, n - 1);
    }
  }

  /** This attempt's own transaction commits: no rival inserted rows before it. */
  predicate CommitsItself(records: seq<Record>, before: seq<nat>, w: World) {
    before == [] && w.allocating.Commits? && !(w.rival && Links(records) != [])
  }

  /** The chunk that the publisher refuses, if any, is not one of this many links. */
  predicate ChunksPass(links: nat, failingChunk: Option<nat>) {
    failingChunk.Some? ==> failingChunk.value * CHUNK >= links
  }

  /** When an attempt completes its job: `before` are the rows that earlier attempts left under the key. */
  predicate Succeeds(records: seq<Record>, before: seq<nat>, w: World) {
    && w.publisher && w.headerReadable && w.columnPresent && Clean(records) && w.lookup
    && (before == [] ==>
      && w.database
      && (CommitsItself(records, before, w) || w.secondLookup)
      && (CommitsItself(records, before, w) || Links(records) == [] || w.rival)
      && (w.thirdLookup || (!CommitsItself(records, before, w) && Links(records) != [])))
    && (CommitsItself(records, before, w) || w.persists)
    && ChunksPass(|Links(records)|, w.failingChunk)
  }

  /** When no retry can help: the file cannot be used, or its links cannot be given tokens. */
  predicate Hopeless(records: seq<Record>, before: seq<nat>, w: World) {
    w.publisher && (
      || !w.headerReadable || !w.columnPresent || !Clean(records)
      || (w.lookup && before == [] && (
        || !w.database
        || (w.allocating.Exhausted? && Links(records) != [] && !w.rival && w.secondLookup))))
  }

  /** The links of this job's file, and what the tables hold for its key. */
  class Upload {
    const records: seq<Record>
    var job: Job
    var stored: seq<nat>
    var sent: seq<nat>
    ghost var allocations: nat

    constructor (records: seq<Record>)
      ensures this.records == records && job == Job(Pending, 0, 0, 0, 0, 0, None, NoCause)
      ensures stored == [] && sent == [] && allocations == 0
    {
      this.records := records;
      job := Job(Pending, 0, 0, 0, 0, 0, None, NoCause);
      stored, sent := [], [];
      allocations := 0;
    }

    /** Rows are inserted all at once, and only under a unique key. */
    ghost predicate Valid()
      reads this
    {
      && (stored == [] || (Clean(records) && stored == Links(records)))
      && (stored != [] ==> allocations == 1)
      && (allocations == 1 ==> stored == Links(records))
      && allocations <= 1
    }

    method FailJob(cause: Cause)
      modifies this`job
      ensures job.status == if old(job).attempts >= 10 || Permanent(cause) then Failed else Retrying
      ensures job == old(job).(status := job.status, delayMinutes := job.delayMinutes, cause := cause)
      ensures job.delayMinutes == if job.status == Failed then None else Some(Backoff(old(job).attempts))
    {
      if job.attempts >= MAX_ATTEMPTS || Permanent(cause) {
        job := job.(status := Failed, cause := cause, delayMinutes := None);
        return;
      }
      job := job.(status := Retrying, cause := cause, delayMinutes := Some(Backoff(job.attempts)));
    }

    /** Publishes every stored link once and in order, chunk by chunk, until a chunk fails. */
    method PublishAll(failingChunk: Option<nat>) returns (ok: bool)
      modifies this`sent
      ensures ok <==> ChunksPass(|stored|, failingChunk)
      ensures ok ==> sent == old(sent) + stored
      ensures !ok ==>
        failingChunk.Some? && exists n :: 0 <= n <= |stored| && n % 500 == 0 && sent == old(sent) + stored[..n]
    {
      var start, chunk := 0, 0;
      while start < |stored|
        invariant start == chunk * CHUNK
        invariant start < |stored| + CHUNK
        invariant failingChunk.Some? ==> failingChunk.value >= chunk
        invariant sent == old(sent) + stored[..if start <= |stored| then start else |stored|]
      {
        var end := start + CHUNK;
        if end > |stored| {
          end := |stored|;
        }
        if failingChunk == Some(chunk) { return false; }
        assert stored[..start] + stored[start..end] == stored[..end];
        sent := sent + stored[start..end];
        start, chunk := start + CHUNK, chunk + 1;
      }
      assert stored[..|stored|] == stored;
      return true;
    }

    /**
     One allocation transaction: a rival that committed first makes it fail and leaves its own rows, an
     error or exhaustion leaves none. Nothing is inserted when there is nothing to insert.
     */
    method Allocate(links: seq<nat>, w: World) returns (ok: bool, exhausted: bool)
      requires Valid() && stored == [] && Clean(records) && links == Links(records)
      modifies this`stored, this`allocations
      ensures Valid() && stored == if w.rival || w.allocating.Commits? then links else []
      ensures ok <==> CommitsItself(records, [], w)
      ensures exhausted <==> w.allocating.Exhausted? && !(w.rival && links != [])
    {
      exhausted := false;
      if w.rival && links != [] {
        stored, allocations := links, 1;
        return false, false;
      }
      match w.allocating {
        case Errors => return false, false;
        case Exhausted => return false, true;
        case Commits =>
          if links != [] {
            stored, allocations := links, 1;
          }
          return true, false;
      }
    }

    /**
     One claimed attempt. Rows that exist are reused and never allocated again, and a finished job has
     created and published exactly the rows it did not skip. The program's failures for an incomplete
     allocation, a second pass that fails and a changed input are the three branches shown dead.
     */
    method ProcessJob(w: World)
      requires Valid() && job.status != Completed && job.status != Failed
      modifies this
      ensures Valid() && (old(stored) != [] ==> stored == old(stored) && allocations == old(allocations))
      ensures job.attempts == old(job).attempts + 1
      ensures job.status ==
        if Succeeds(records, old(stored), w) then Completed
        else if job.attempts >= MAX_ATTEMPTS || Hopeless(records, old(stored), w) then Failed
        else Retrying
      ensures job.status == Completed <==> job.cause == NoCause
      ensures job.status != Completed ==> (Permanent(job.cause) <==> Hopeless(records, old(stored), w))
      ensures !w.publisher <==> job.cause == NoPublisher
      ensures w.publisher && !w.headerReadable <==> job.cause == BadHeader
      ensures w.publisher && w.headerReadable && !w.columnPresent <==> job.cause == NoColumn
      ensures w.publisher && w.headerReadable && w.columnPresent && !Clean(records) <==> job.cause == BadCsv
      ensures job.status == Completed ==>
        && Clean(records) && stored == Links(records) && sent == old(sent) + stored
        && job.created == job.published == |stored| && job.totalRows - job.skipped == |stored|
    {
      job := job.(status := Processing, attempts := job.attempts + 1);
      if !w.publisher { FailJob(NoPublisher); return; }
      if !w.headerReadable { FailJob(BadHeader); return; }
      if !w.columnPresent { FailJob(NoColumn); return; }
      var inspection := InspectCsv(records);
      if inspection.BadFile? { FailJob(BadCsv); return; }
      job := job.(totalRows := inspection.totalRows, skipped := inspection.skipped);
      ProcessLinks(w);
    }

    /** After the inspection: allocation where none exists, then publication. */
    method ProcessLinks(w: World)
      requires Valid() && Clean(records) && job.status == Processing
      requires job.totalRows - job.skipped == |Links(records)|
      modifies this
      ensures Valid() && (old(stored) != [] ==> stored == old(stored) && allocations == old(allocations))
      ensures job.attempts == old(job).attempts
      ensures w.publisher && w.headerReadable && w.columnPresent ==>
        job.status ==
          if Succeeds(records, old(stored), w) then Completed
          else if job.attempts >= MAX_ATTEMPTS || Hopeless(records, old(stored), w) then Failed
          else Retrying
      ensures job.status == Completed <==> job.cause == NoCause
      ensures w.publisher && w.headerReadable && w.columnPresent && job.status != Completed ==>
        (Permanent(job.cause) <==> Hopeless(records, old(stored), w))
      ensures job.cause in {NoCause, NoDatabase, OutOfTokens, DatabaseError, PublishError}
      ensures w.lookup && old(stored) == [] && !w.database <==> job.cause == NoDatabase
      ensures job.status == Completed ==>
        && stored == Links(records) && sent == old(sent) + stored
        && job.created == job.published == |stored| && job.totalRows - job.skipped == |stored|
    {
      hide Links, Clean;
      if !w.lookup { FailJob(DatabaseError); return; }
      var links := stored;
      var expectedLinks := job.totalRows - job.skipped;
      var progressPersisted := false;
      if |links| > 0 && |links| != expectedLinks { assert false; }
      if |links| == 0 {
        if !w.database { FailJob(NoDatabase); return; }
        var longLinks := CollectLinks(records);
        if longLinks.None? { assert false; }
        if |longLinks.value| != expectedLinks { assert false; }
        var ok, exhausted := Allocate(longLinks.value, w);
        if !ok {
          if !w.secondLookup { FailJob(DatabaseError); return; }
          links := stored;
          if |links| != expectedLinks {
            FailJob(if exhausted then OutOfTokens else DatabaseError);
            return;
          }
          job := job.(created := |links|);
        } else {
          job := job.(created := |longLinks.value|);
          progressPersisted := true;
        }
        if |links| == 0 {
          if !w.thirdLookup { FailJob(DatabaseError); return; }
          links := stored;
        }
      }
      FinishAttempt(progressPersisted, w);
    }

    /** The counters are persisted, every stored link is published, and the job is complete. */
    method FinishAttempt(progressPersisted: bool, w: World)
      requires job.status == Processing
      modifies this`job, this`sent
      ensures job.attempts == old(job).attempts
      ensures job.status ==
        if (progressPersisted || w.persists) && ChunksPass(|stored|, w.failingChunk) then Completed
        else if job.attempts >= MAX_ATTEMPTS then Failed
        else Retrying
      ensures if job.status == Completed then job.cause == NoCause else job.cause in {DatabaseError, PublishError}
      ensures job.status == Completed ==>
        && sent == old(sent) + stored && job.created == job.published == |stored|
        && job.totalRows == old(job).totalRows && job.skipped == old(job).skipped
    {
      job := job.(created := |stored|);
      if !progressPersisted && !w.persists { FailJob(DatabaseError); return; }
      var published := PublishAll(w.failingChunk);
      if !published { FailJob(PublishError); return; }
      job := job.(status := Completed, published := |stored|, delayMinutes := None, cause := NoCause);
    }

    /** A job retried through any worlds allocates at most once, and at most ten transient failures are retried. */
    method ProcessUntilDone(worlds: seq<World>)
      requires Valid() && job == Job(Pending, 0, 0, 0, 0, 0, None, NoCause) && allocations == 0
      modifies this
      ensures Valid() && allocations <= 1
      ensures job.attempts <= 10
      ensures |worlds| >= 10 ==> job.status == Completed || job.status == Failed
      ensures job.status == Completed ==>
        job.created == job.published == job.totalRows - job.skipped == |Links(records)|
    {
      var i := 0;
      while i < |worlds| && job.status != Completed && job.status != Failed
        invariant 0 <= i <= |worlds| && Valid() && job.attempts == i <= MAX_ATTEMPTS
        invariant i == MAX_ATTEMPTS ==> job.status == Completed || job.status == Failed
        invariant job.status == Completed ==>
          job.created == job.published == job.totalRows - job.skipped == |Links(records)|
      {
        ProcessJob(worlds[i]);
        i := i + 1;
      }
    }
  }

  // ---------------------------------------------------------------- building export records in parallel

  function ChunkSize(n: nat, workers: nat): nat
    requires workers > 0
  {
    (n + workers - 1) / workers
  }

  /** The smallest chunk with which the workers cover all rows. */
  lemma {:induction false} ChunkIsSmallest(n: nat, workers: nat)
    requires workers > 0
    ensures workers * ChunkSize(n, workers) >= n
    ensures forall c: nat :: workers * c >= n ==> ChunkSize(n, workers) <= c
  {
    var size := ChunkSize(n, workers);
    Quotient(n + workers - 1, workers);
    forall c: nat | workers * c >= n
      ensures size <= c
    {
      Gap(c, size, workers);
    }
  }

  predicate InChunk(i: nat, w: nat, n: nat, workers: nat)
    requires workers > 0
  {
    w < workers && w * ChunkSize(n, workers) <= i < w * ChunkSize(n, workers) + ChunkSize(n, workers)
  }

  lemma {:induction false} Quotient(i: nat, c: nat)
    requires c > 0
    ensures i / c * c <= i < i / c * c + c
    ensures c <= i ==> i / c >= 1
  {
  }

  lemma {:induction false} Gap(a: nat, b: nat, c: nat)
    ensures a < b ==> a * c + c <= b * c
  {
    if a < b {
      var d: nat := b - (a + 1);
      assert b == (a + 1) + d;
      assert b * c == (a + 1) * c + d * c;
      assert d * c >= 0;
    }
  }

  /** Every row falls into exactly one worker's chunk: no row is skipped, and no two workers write one slot. */
  lemma {:induction false} ChunksPartition(i: nat, n: nat, workers: nat)
    requires 0 < workers && i < n
    ensures ChunkSize(n, workers) > 0
    ensures InChunk(i, i / ChunkSize(n, workers), n, workers)
    ensures forall w: nat :: InChunk(i, w, n, workers) ==> w == i / ChunkSize(n, workers)
  {
    var c := ChunkSize(n, workers);
    Quotient(n + workers - 1, workers);
    assert workers * c >= n;
    Quotient(i, c);
    var q := i / c;
    Gap(workers - 1, q, c);
    assert (workers - 1) * c + c == workers * c;
    forall w: nat
      ensures InChunk(i, w, n, workers) ==> w == q
    {
      Gap(w, q, c);
      Gap(q, w, c);
    }
  }
}
