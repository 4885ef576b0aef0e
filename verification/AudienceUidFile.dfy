/**
 The append-only audience file. A writer appends a batch under the campaign's lock, in one or more
 partial writes; a reader takes the lock only to capture the size, and reads that many bytes later.
 */
module AudienceUidFile {
  import opened Wrappers

  /** A batch being written: its bytes, and how many have reached the file. */
  datatype Append = Append(batch: seq<nat>, written: nat)

  /** A boundary that a reader captured, and how many batches had been written completely by then. */
  datatype Snapshot = Snapshot(size: nat, batches: nat)

  /** `whole` lists the batches whose bytes have all reached the file. */
  datatype State = State(bytes: seq<nat>, writing: Option<Append>, whole: seq<seq<nat>>, snapshots: seq<Snapshot>)

  datatype Event =
    | Begin(batch: seq<nat>)
    | Write(count: nat)
    | Finish
    | CutShort
    | Capture

  /**
   A writer or a capture that finds the lock taken waits, which is no step; an empty batch is not written.
   A writer that is cut short gives up with whatever has reached the file.
   */
  function Step(s: State, e: Event): (r: State) {
    match e
    case Begin(batch) => if s.writing.Some? || batch == [] then s else s.(writing := Some(Append(batch, 0)))
    case Write(count) =>
      if s.writing.None? then s
      else
        var w := s.writing.value;
        if w.written + count > |w.batch| then s
        else s.(bytes := s.bytes + w.batch[w.written..w.written + count],
                writing := Some(w.(written := w.written + count)))
    case Finish =>
      if s.writing.None? || s.writing.value.written != |s.writing.value.batch| then s
      else s.(writing := None, whole := s.whole + [s.writing.value.batch])
    case CutShort =>
      if s.writing.Some? && s.writing.value.written == |s.writing.value.batch|
      then s.(writing := None, whole := s.whole + [s.writing.value.batch])
      else s.(writing := None)
    case Capture =>
      if s.writing.Some? then s else s.(snapshots := s.snapshots + [Snapshot(|s.bytes|, |s.whole|)])
  }

  function Run(s: State, es: seq<Event>): (r: State)
    decreases |es|
  {
    if es == [] then s else Run(Step(s, es[0]), es[1..])
  }

  const EMPTY := State([], None, [], [])

  function Concat(batches: seq<seq<nat>>): (bytes: seq<nat>) {
    if batches == [] then [] else Concat(batches[..|batches| - 1]) + batches[|batches| - 1]
  }

  /** A writer is cut short after some but not all of its bytes. */
  predicate Tears(s: State, e: Event) {
    e.CutShort? && s.writing.Some? && 0 < s.writing.value.written < |s.writing.value.batch|
  }

  predicate Torn(s: State, es: seq<Event>)
    decreases |es|
  {
    es != [] && (Tears(s, es[0]) || Torn(Step(s, es[0]), es[1..]))
  }

  function Partial(s: State): seq<nat>
  {
    if s.writing.Some? && s.writing.value.written <= |s.writing.value.batch|
    then s.writing.value.batch[..s.writing.value.written] else []
  }

  predicate WriterFits(s: State) {
    s.writing.Some? ==> s.writing.value.written <= |s.writing.value.batch|
  }

  /** The file holds the whole batches and what the present writer has written. */
  predicate Pieced(s: State) {
    s.bytes == Concat(s.whole) + Partial(s)
  }

  /** How many bytes of the file belong to no whole batch and to no present writer. */
  function Stray(s: State): int {
    |s.bytes| - |Concat(s.whole)| - |Partial(s)|
  }

  lemma {:induction false} ConcatAppend(whole: seq<seq<nat>>, batch: seq<nat>)
    ensures Concat(whole + [batch]) == Concat(whole) + batch
  {
  }

  lemma {:induction false} StepPieces(s: State, e: Event)
    requires WriterFits(s)
    ensures WriterFits(Step(s, e)) && s.bytes <= Step(s, e).bytes && s.whole <= Step(s, e).whole
    ensures Pieced(s) && !Tears(s, e) ==> Pieced(Step(s, e))
    ensures Stray(Step(s, e)) == Stray(s) + if Tears(s, e) then s.writing.value.written else 0
  {
    hide Concat;
    if s.writing.Some? {
      var batch := s.writing.value.batch;
      assert batch[..|batch|] == batch;
      ConcatAppend(s.whole, batch);
    }
  }

  lemma {:induction false} RunPieces(s: State, es: seq<Event>)
    requires WriterFits(s)
    ensures WriterFits(Run(s, es)) && s.bytes <= Run(s, es).bytes && s.whole <= Run(s, es).whole
    ensures Pieced(s) && !Torn(s, es) ==> Pieced(Run(s, es))
    ensures Stray(Run(s, es)) >= Stray(s) && (Torn(s, es) ==> Stray(Run(s, es)) > Stray(s))
    decreases |es|
  {
    hide WriterFits, Pieced, Stray, Step;
    if es != [] {
      StepPieces(s, es[0]);
      assert Tears(s, es[0]) ==> s.writing.value.written > 0;
      hide Tears;
      RunPieces(Step(s, es[0]), es[1..]);
    }
  }

  lemma {:induction false} RunKeepsSnapshots(s: State, es: seq<Event>)
    ensures s.snapshots <= Run(s, es).snapshots
    decreases |es|
  {
    if es != [] {
      assert s.snapshots <= Step(s, es[0]).snapshots;
      hide Step;
      RunKeepsSnapshots(Step(s, es[0]), es[1..]);
    }
  }

  /** While a writer is at work, nothing is captured. */
  lemma {:induction false} CaptureWaits(s: State)
    ensures Step(s, Capture).snapshots == s.snapshots <==> s.writing.Some?
  {
  }

  /**
   A reader captures a boundary after any history, and gets to the bytes before it after any continuation,
   with writers at work. What it then reads is exactly the batches that were whole when it captured iff
   until then no append had been cut short after some but not all of its bytes.
   */
  lemma {:induction false} SnapshotsHoldWholeBatchesIff(before: seq<Event>, after: seq<Event>)
    requires Run(EMPTY, before).writing.None?
    ensures
      var i := |Run(EMPTY, before).snapshots|;
      var s := Run(Step(Run(EMPTY, before), Capture), after);
      && i < |s.snapshots|
      && var snapshot := s.snapshots[i];
      && snapshot.size <= |s.bytes| && snapshot.batches <= |s.whole|
      && (s.bytes[..snapshot.size] == Concat(s.whole[..snapshot.batches]) <==> !Torn(EMPTY, before))
  {
    var s := Run(EMPTY, before);
    RunPieces(EMPTY, before);
    var t := Step(s, Capture);
    StepPieces(s, Capture);
    hide Run, Torn, Concat, Tears;
    RunPieces(t, after);
    RunKeepsSnapshots(t, after);
    var r := Run(t, after);
    assert r.snapshots[|s.snapshots|] == Snapshot(|s.bytes|, |s.whole|);
    assert r.bytes[..|s.bytes|] == s.bytes && r.whole[..|s.whole|] == s.whole;
    EmptyHasNoStray();
    assert Stray(s) == |s.bytes| - |Concat(s.whole)|;
  }

  lemma {:induction false} EmptyHasNoStray()
    ensures Stray(EMPTY) == 0 && Pieced(EMPTY)
  {
  }

  /** An append that nobody cuts short, however it is split, adds exactly its batch, and frees the lock. */
  lemma {:induction false} AppendArrives(s: State, batch: seq<nat>, k: nat)
    requires s.writing.None? && k <= |batch| && batch != []
    ensures
      var t := Step(Step(Step(Step(s, Begin(batch)), Write(k)), Write(|batch| - k)), Finish);
      && t == State(s.bytes + batch, None, s.whole + [batch], s.snapshots)
      && Step(t, Capture).snapshots == s.snapshots + [Snapshot(|s.bytes| + |batch|, |s.whole| + 1)]
  {
    TwoPieces(s.bytes, batch, k);
    var b := Step(Step(s, Begin(batch)), Write(k));
    assert b == State(s.bytes + batch[0..k], Some(Append(batch, k)), s.whole, s.snapshots);
    var c := Step(b, Write(|batch| - k));
    assert c == State(s.bytes + batch, Some(Append(batch, |batch|)), s.whole, s.snapshots);
    assert Step(c, Finish) == State(s.bytes + batch, None, s.whole + [batch], s.snapshots);
  }

  lemma {:induction false} TwoPieces(bytes: seq<nat>, batch: seq<nat>, k: nat)
    requires k <= |batch|
    ensures bytes + batch[0..k] + batch[k..|batch|] == bytes + batch
  {
  }

  /** A write that fails half way leaves its piece behind, and the next snapshot contains it. */
  lemma {:induction false} TornWriteIsSeen()
    ensures
      var s := Step(Step(Step(Step(EMPTY, Begin([1, 2])), Write(1)), CutShort), Capture);
      s.bytes == [1] && s.snapshots == [Snapshot(1, 0)] && s.whole == []
  {
  }
}
