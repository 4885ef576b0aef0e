/**
 Building the batches of a tag evaluation: reading the active tags page by page, cutting them into
 numbered batches, and validating a provider's answer for one batch.
 */
module EvaluationBatches {
  import opened Wrappers

  datatype Result<+T> = Ok(value: T) | Err

  // ---------------------------------------------------------------- the tag catalogue

  /** A stored tag; `complete` says that its evaluation metadata is all there. */
  datatype Tag = Tag(id: nat, active: bool, complete: bool)

  /** Rows in the order the query sorts them. */
  predicate Sorted(catalogue: seq<Tag>) {
    forall i, j :: 0 <= i < j < |catalogue| ==> catalogue[i].id < catalogue[j].id
  }

  predicate After(tag: Tag, after: Option<nat>) {
    after.None? || after.value == 0 || tag.id > after.value
  }

  /** Active tags past a position, in order. */
  function ActiveAfter(catalogue: seq<Tag>, after: Option<nat>): (tags: seq<Tag>)
    ensures forall t :: t in tags ==> t in catalogue && t.active && After(t, after)
  {
    if catalogue == [] then []
    else if catalogue[0].active && After(catalogue[0], after) then [catalogue[0]] + ActiveAfter(catalogue[1..], after)
    else ActiveAfter(catalogue[1..], after)
  }

  function Take<T>(xs: seq<T>, n: nat): (r: seq<T>)
    ensures r <= xs && |r| <= n && (|r| == n || r == xs)
  {
    if n <= |xs| then xs[..n] else xs
  }

  /** One page of the keyset query. */
  function ListActiveAfterID(catalogue: seq<Tag>, after: Option<nat>, limit: nat): seq<Tag> {
    Take(ActiveAfter(catalogue, after), limit)
  }

  function Active(catalogue: seq<Tag>): seq<Tag> {
    ActiveAfter(catalogue, None)
  }

  lemma {:induction false} ActiveIsSorted(catalogue: seq<Tag>, after: Option<nat>)
    requires Sorted(catalogue)
    ensures Sorted(ActiveAfter(catalogue, after))
  {
    if catalogue != [] {
      ActiveIsSorted(catalogue[1..], after);
      forall t | t in ActiveAfter(catalogue[1..], after)
        ensures catalogue[0].id < t.id
      {
        var j :| 0 <= j < |catalogue[1..]| && catalogue[1..][j] == t;
      }
    }
  }

  lemma {:induction false} NothingBefore(tags: seq<Tag>, position: nat)
    requires position > 0 && forall i :: 0 <= i < |tags| ==> tags[i].id > position
    ensures ActiveAfter(tags, Some(position)) == ActiveAfter(tags, None)
  {
    if tags != [] {
      NothingBefore(tags[1..], position);
    }
  }

  /** Asking for tags after the last one of a page continues the list where the page ended. */
  lemma {:induction false} SortedTail(tags: seq<Tag>)
    requires Sorted(tags) && tags != []
    ensures Sorted(tags[1..]) && forall i :: 0 <= i < |tags[1..]| ==> tags[1..][i].id > tags[0].id
  {
  }

  lemma {:induction false} PageContinues(catalogue: seq<Tag>, k: nat)
    requires Sorted(catalogue) && 0 < k <= |Active(catalogue)| && Active(catalogue)[k - 1].id > 0
    ensures ActiveAfter(catalogue, Some(Active(catalogue)[k - 1].id)) == Active(catalogue)[k..]
    decreases |catalogue|
  {
    hide Sorted;
    SortedTail(catalogue);
    var rest := catalogue[1..];
    if !catalogue[0].active {
      PageContinues(rest, k);
    } else {
      assert Active(catalogue) == [catalogue[0]] + Active(rest);
      assert Active(catalogue)[k..] == Active(rest)[k - 1..];
      if k == 1 {
        NothingBefore(rest, catalogue[0].id);
      } else {
        FirstIsBefore(catalogue, Active(rest)[k - 2]);
        PageContinues(rest, k - 1);
      }
      assert ActiveAfter(catalogue, Some(Active(catalogue)[k - 1].id)) ==
        ActiveAfter(rest, Some(Active(catalogue)[k - 1].id));
    }
  }

  lemma {:induction false} FirstIsBefore(catalogue: seq<Tag>, t: Tag)
    requires Sorted(catalogue) && catalogue != [] && t in Active(catalogue[1..])
    ensures catalogue[0].id < t.id
  {
  }

  predicate Complete(tags: seq<Tag>) {
    forall i :: 0 <= i < |tags| ==> tags[i].complete
  }

  /** One page appended to the snapshots, unless a tag on it lacks metadata. */
  method AppendPage(snapshots: seq<Tag>, rows: seq<Tag>) returns (r: Result<seq<Tag>>)
    requires forall t :: t in rows ==> t.active
    ensures r == if Complete(rows) then Ok(snapshots + rows) else Err
  {
    var collected := snapshots;
    for i := 0 to |rows|
      invariant collected == snapshots + rows[..i] && Complete(rows[..i])
    {
      assert rows[i] in rows;
      if !rows[i].active { assert false; }
      if !rows[i].complete {
        assert !Complete(rows);
        return Err;
      }
      collected := collected + [rows[i]];
      assert rows[..i + 1] == rows[..i] + [rows[i]];
    }
    assert rows[..|rows|] == rows;
    return Ok(collected);
  }

  lemma {:induction false} PageIsNext(catalogue: seq<Tag>, after: Option<nat>, done: nat, limit: nat)
    requires Sorted(catalogue) && (forall t :: t in catalogue ==> t.id > 0) && limit > 0
    requires done <= |Active(catalogue)| && ActiveAfter(catalogue, after) == Active(catalogue)[done..]
    ensures
      var rows := ListActiveAfterID(catalogue, after, limit);
      var next := done + |rows|;
      && (rows == [] <==> done == |Active(catalogue)|)
      && next <= |Active(catalogue)| && rows == Active(catalogue)[done..next]
      && (forall t :: t in rows ==> t.active)
      && (rows != [] ==> ActiveAfter(catalogue, Some(rows[|rows| - 1].id)) == Active(catalogue)[next..])
  {
    hide ActiveAfter, Sorted;
    var rows := ListActiveAfterID(catalogue, after, limit);
    assert forall t :: t in rows ==> t in ActiveAfter(catalogue, after);
    if rows != [] {
      var next := done + |rows|;
      assert Active(catalogue)[next - 1] == rows[|rows| - 1];
      assert Active(catalogue)[next - 1] in catalogue;
      PageContinues(catalogue, next);
    }
  }

  lemma {:induction false} CompleteInParts(tags: seq<Tag>, k: nat, n: nat)
    requires k <= n <= |tags| && Complete(tags[..k])
    ensures Complete(tags[k..n]) <==> Complete(tags[..n])
    ensures !Complete(tags[..n]) ==> !Complete(tags)
    ensures tags[..k] + tags[k..n] == tags[..n]
  {
  }

  /**
   The keyset loop: it ends, visits every active tag exactly once and in order, and fails exactly when
   an active tag lacks metadata. Ids are positive.
   */
  method CollectSnapshots(catalogue: seq<Tag>, tagBatchSize: int) returns (r: Result<seq<Tag>>)
    requires Sorted(catalogue) && forall t :: t in catalogue ==> t.id > 0
    ensures r == if Complete(Active(catalogue)) then Ok(Active(catalogue)) else Err
  {
    hide ActiveAfter, ListActiveAfterID, Sorted, Complete;
    var limit := if tagBatchSize > 1 then tagBatchSize else 1;
    var snapshots: seq<Tag> := [];
    var afterID: Option<nat> := None;
    ghost var all := Active(catalogue);
    assert Complete([]) by { NoTagIsIncomplete(); }
    assert all[..0] == [] && all[0..] == all;
    while true
      invariant |snapshots| <= |all| && snapshots == all[..|snapshots|]
      invariant ActiveAfter(catalogue, afterID) == all[|snapshots|..]
      invariant Complete(snapshots)
      decreases |all| - |snapshots|
    {
      ghost var done := |snapshots|;
      var rows := ListActiveAfterID(catalogue, afterID, limit);
      PageIsNext(catalogue, afterID, done, limit);
      if |rows| == 0 { break; }
      CompleteInParts(all, done, done + |rows|);
      var page := AppendPage(snapshots, rows);
      if page.Err? { return Err; }
      snapshots := page.value;
      afterID := Some(rows[|rows| - 1].id);
    }
    assert snapshots == all;
    return Ok(snapshots);
  }

  lemma {:induction false} NoTagIsIncomplete()
    ensures Complete([])
  {
  }

  // ---------------------------------------------------------------- cutting into batches

  datatype Batch = Batch(number: nat, tags: seq<Tag>, first: nat, last: nat)

  function Flatten(batches: seq<Batch>): (tags: seq<Tag>) {
    if batches == [] then [] else Flatten(batches[..|batches| - 1]) + batches[|batches| - 1].tags
  }

  /** Numbered from 1, never empty, all full but the last, and labelled with their own end tags. */
  predicate WellFormed(batches: seq<Batch>, batchSize: nat) {
    forall i :: 0 <= i < |batches| ==>
      && batches[i].number == i + 1
      && 1 <= |batches[i].tags| <= batchSize
      && (i < |batches| - 1 ==> |batches[i].tags| == batchSize)
      && batches[i].first == batches[i].tags[0].id
      && batches[i].last == batches[i].tags[|batches[i].tags| - 1].id
  }

  /** All full so far. */
  predicate AllFull(batches: seq<Batch>, batchSize: nat) {
    forall i :: 0 <= i < |batches| ==> |batches[i].tags| == batchSize
  }

  lemma {:induction false} BatchAppended(batches: seq<Batch>, batchSize: nat, b: Batch)
    requires WellFormed(batches, batchSize) && AllFull(batches, batchSize)
    requires b.number == |batches| + 1 && 1 <= |b.tags| <= batchSize
    requires b.first == b.tags[0].id && b.last == b.tags[|b.tags| - 1].id
    ensures WellFormed(batches + [b], batchSize) && Flatten(batches + [b]) == Flatten(batches) + b.tags
    ensures |b.tags| == batchSize ==> AllFull(batches + [b], batchSize)
  {
  }

  /** The next chunk, cut off at the end. */
  lemma {:induction false} ChunkIsNext(snapshots: seq<Tag>, idx: nat, batchSize: nat)
    requires idx < |snapshots| && batchSize > 0
    ensures
      var end := if idx + batchSize > |snapshots| then |snapshots| else idx + batchSize;
      && idx < end <= |snapshots| && 1 <= end - idx <= batchSize
      && (end < |snapshots| ==> end - idx == batchSize)
      && snapshots[..idx] + snapshots[idx..end] == snapshots[..end]
  {
  }

  lemma {:induction false} NoBatches(batchSize: nat)
    ensures WellFormed([], batchSize) && AllFull([], batchSize) && Flatten([]) == []
  {
  }

  method BuildBatches(snapshots: seq<Tag>, tagBatchSize: int) returns (batches: seq<Batch>)
    ensures Flatten(batches) == snapshots
    ensures WellFormed(batches, if tagBatchSize > 1 then tagBatchSize else 1)
  {
    hide *;
    batches := [];
    var batchSize: nat := if tagBatchSize > 1 then tagBatchSize else 1;
    var idx: nat, batchNumber: nat := 0, 1;
    ghost var done: nat := 0;
    NoBatches(batchSize);
    while idx < |snapshots|
      invariant done <= |snapshots| && done <= idx && (idx < |snapshots| ==> done == idx) &&
        (idx >= |snapshots| ==> done == |snapshots|)
      invariant batchNumber == |batches| + 1
      invariant Flatten(batches) == snapshots[..done]
      invariant WellFormed(batches, batchSize)
      invariant idx < |snapshots| ==> AllFull(batches, batchSize)
    {
      var end := idx + batchSize;
      if end > |snapshots| {
        end := |snapshots|;
      }
      ChunkIsNext(snapshots, idx, batchSize);
      var chunk := snapshots[idx..end];
      var batch := Batch(batchNumber, chunk, chunk[0].id, chunk[|chunk| - 1].id);
      BatchAppended(batches, batchSize, batch);
      batches := batches + [batch];
      done := end;
      idx, batchNumber := idx + batchSize, batchNumber + 1;
    }
    assert snapshots[..done] == snapshots;
  }

  /** Consecutive batches cover increasing, non-overlapping id ranges. */
  lemma {:induction false} BatchRangesIncrease(catalogue: seq<Tag>, batches: seq<Batch>, batchSize: nat, i: nat)
    requires Sorted(catalogue) && Flatten(batches) == Active(catalogue) && WellFormed(batches, batchSize) &&
      i + 1 < |batches|
    ensures batches[i].first <= batches[i].last < batches[i + 1].first
  {
    ActiveIsSorted(catalogue, None);
    FlattenAt(batches, i, 0);
    FlattenAt(batches, i, |batches[i].tags| - 1);
    FlattenAt(batches, i + 1, 0);
    assert batches[..i + 1][..i] == batches[..i];
    assert Flatten(batches[..i + 1]) == Flatten(batches[..i]) + batches[i].tags;
  }

  lemma {:induction false} FlattenAt(batches: seq<Batch>, i: nat, k: nat)
    requires i < |batches| && k < |batches[i].tags|
    ensures
      var at := |Flatten(batches[..i])| + k;
      at < |Flatten(batches)| && Flatten(batches)[at] == batches[i].tags[k]
    decreases |batches|
  {
    var front := batches[..|batches| - 1];
    if i < |front| {
      FlattenAt(front, i, k);
      assert front[..i] == batches[..i];
    }
  }

  // ---------------------------------------------------------------- validating an answer

  /** One decoded score; a score may come under either of two names. */
  datatype Item =
    | Undecodable
    | Item(tag: nat, bundleScore: Option<real>, campaignScore: Option<real>, textsPresent: bool)

  datatype Validation = Validation(exactCount: bool, exactIds: bool, maxMissing: int)

  function FitScore(item: Item): Option<real>
    requires item.Item?
  {
    if item.bundleScore.Some? then item.bundleScore else item.campaignScore
  }

  /** What one item must satisfy on its own. */
  predicate Acceptable(item: Item, expected: set<nat>, v: Validation) {
    && item.Item?
    && !(item.bundleScore.Some? && item.campaignScore.Some? && item.bundleScore.value != item.campaignScore.value)
    && item.tag != 0
    && (v.exactIds ==> item.tag in expected)
    && (item.bundleScore.Some? || item.campaignScore.Some?)
    && (item.bundleScore.Some? ==> 0.0 <= item.bundleScore.value <= 100.0)
    && (item.campaignScore.Some? ==> 0.0 <= item.campaignScore.value <= 100.0)
    && item.textsPresent
  }

  predicate Unrepeated(items: seq<Item>) {
    forall i, j :: 0 <= i < j < |items| && items[i].Item? && items[j].Item? ==> items[i].tag != items[j].tag
  }

  predicate Scored(items: seq<Item>, tag: nat) {
    exists i :: 0 <= i < |items| && items[i].Item? && items[i].tag == tag
  }

  function Missing(items: seq<Item>, tags: seq<nat>): (missing: seq<nat>)
    ensures |missing| <= |tags|
  {
    if tags == [] then []
    else Missing(items, tags[..|tags| - 1]) + if Scored(items, tags[|tags| - 1]) then [] else [tags[|tags| - 1]]
  }

  /** An answer is valid when its items are, none repeats, and few enough tags are left out. */
  predicate ValidAnswer(items: seq<Item>, tags: seq<nat>, v: Validation) {
    && v.maxMissing >= 0
    && (v.exactCount ==> 0 <= |tags| - |items| <= v.maxMissing)
    && (forall i :: 0 <= i < |items| ==> Acceptable(items[i], Expected(tags), v))
    && Unrepeated(items)
    && |Missing(items, tags)| <= v.maxMissing
  }

  function Expected(tags: seq<nat>): set<nat> {
    set t | t in tags
  }

  /** The results map of a valid answer. */
  ghost predicate Records(results: map<nat, real>, items: seq<Item>) {
    && (forall t :: t in results <==> Scored(items, t))
    && (forall i :: 0 <= i < |items| && items[i].Item? && items[i].bundleScore.Some? ==>
          items[i].tag in results && results[items[i].tag] == items[i].bundleScore.value)
    && (forall i :: 0 <= i < |items| && items[i].Item? && items[i].bundleScore.None? && items[i].campaignScore.Some? ==>
          items[i].tag in results && results[items[i].tag] == items[i].campaignScore.value)
  }

  lemma {:induction false} ScoredAppend(items: seq<Item>, item: Item, tag: nat)
    ensures Scored(items + [item], tag) <==> Scored(items, tag) || (item.Item? && item.tag == tag)
  {
    var all := items + [item];
    if Scored(items, tag) {
      var i :| 0 <= i < |items| && items[i].Item? && items[i].tag == tag;
      assert all[i].tag == tag;
    }
    if item.Item? && item.tag == tag {
      assert all[|items|].tag == tag;
    }
  }

  /** Accepts exactly the valid answers, and maps each answered tag to its score. */
  method ParseAndValidate(items: seq<Item>, tags: seq<nat>, v: Validation) returns (r: Result<map<nat, real>>)
    ensures r.Ok? <==> ValidAnswer(items, tags, v)
    ensures r.Ok? ==> Records(r.value, items)
  {
    if v.maxMissing < 0 { return Err; }
    if v.exactCount {
      var missingItemCount := |tags| - |items|;
      if missingItemCount < 0 || missingItemCount > v.maxMissing { return Err; }
    }
    var expected := Expected(tags);
    var results: map<nat, real> := map[];
    for k := 0 to |items|
      invariant forall i :: 0 <= i < k ==> Acceptable(items[i], expected, v)
      invariant Unrepeated(items[..k])
      invariant Records(results, items[..k])
    {
      var item := items[k];
      if item.Undecodable? {
        assert !Acceptable(items[k], expected, v);
        return Err;
      }
      ghost var head := items[..k];
      assert items[..k + 1] == head + [item];
      if item.tag in results {
        Repeats(items, k);
        return Err;
      }
      if !AcceptItem(item, expected, v) {
        assert !Acceptable(items[k], expected, v);
        return Err;
      }
      results := Recorded(results, items, k);
    }
    assert items[..|items|] == items;
    var missing := CountMissing(results, items, tags);
    if missing > v.maxMissing { return Err; }
    return Ok(results);
  }

  /** The tests on one decoded item, in the program's order. */
  predicate AcceptItem(item: Item, expected: set<nat>, v: Validation)
    requires item.Item?
  {
    if item.bundleScore.Some? && item.campaignScore.Some? && item.bundleScore.value != item.campaignScore.value
      then false
    else if item.tag == 0 then false
    else if item.tag !in expected && v.exactIds then false
    else if FitScore(item).None? then false
    else if FitScore(item).value < 0.0 || FitScore(item).value > 100.0 then false
    else item.textsPresent
  }

  lemma {:induction false} Repeats(items: seq<Item>, k: nat)
    requires k < |items| && items[k].Item? && Scored(items[..k], items[k].tag)
    ensures !Unrepeated(items)
  {
  }

  function Recorded(results: map<nat, real>, items: seq<Item>, k: nat): (r: map<nat, real>)
    requires k < |items| && items[k].Item? && FitScore(items[k]).Some?
    requires Records(results, items[..k]) && items[k].tag !in results && Unrepeated(items[..k])
    ensures Records(r, items[..k + 1]) && Unrepeated(items[..k + 1])
  {
    var head := items[..k];
    assert items[..k + 1] == head + [items[k]];
    assert forall t :: Scored(head + [items[k]], t) <==> Scored(head, t) || items[k].tag == t by {
      forall t {
        ScoredAppend(head, items[k], t);
      }
    }
    assert forall i :: 0 <= i < k && head[i].Item? ==> Scored(head, head[i].tag);
    results[items[k].tag := FitScore(items[k]).value]
  }

  method CountMissing(results: map<nat, real>, items: seq<Item>, tags: seq<nat>) returns (n: nat)
    requires Records(results, items)
    ensures n == |Missing(items, tags)|
  {
    n := 0;
    for i := 0 to |tags|
      invariant n == |Missing(items, tags[..i])|
    {
      assert tags[..i + 1][..i] == tags[..i];
      if tags[i] !in results {
        n := n + 1;
      }
    }
    assert tags[..|tags|] == tags;
  }

  /** The tags that get a score row. */
  function RowTags(results: set<nat>, tags: seq<nat>): (rows: seq<nat>) {
    if tags == [] then []
    else RowTags(results, tags[..|tags| - 1]) + if tags[|tags| - 1] in results then [tags[|tags| - 1]] else []
  }

  /** One row per tag of the batch that has a result, in the batch's order. */
  method BuildScoreRows(results: map<nat, real>, tags: seq<nat>) returns (rows: seq<nat>)
    ensures rows == RowTags(results.Keys, tags)
  {
    rows := [];
    for i := 0 to |tags|
      invariant rows == RowTags(results.Keys, tags[..i])
    {
      assert tags[..i + 1][..i] == tags[..i];
      if tags[i] in results {
        rows := rows + [tags[i]];
      }
    }
    assert tags[..|tags|] == tags;
  }

  /**
   A valid answer stores a row for every tag but the missing ones, so each batch is short of its tag
   count by at most the allowed number, whatever other tags the answer mentions.
   */
  lemma {:induction false} RowsAndMissingFillTheBatch(results: map<nat, real>, items: seq<Item>, tags: seq<nat>)
    requires Records(results, items)
    ensures |RowTags(results.Keys, tags)| + |Missing(items, tags)| == |tags|
  {
    hide Scored;
    if tags != [] {
      RowsAndMissingFillTheBatch(results, items, tags[..|tags| - 1]);
    }
  }

  lemma {:induction false} ValidAnswerLeavesFewOut(results: map<nat, real>, items: seq<Item>, tags: seq<nat>,
      v: Validation)
    requires ValidAnswer(items, tags, v) && Records(results, items)
    ensures 0 <= |tags| - |RowTags(results.Keys, tags)| <= v.maxMissing
  {
    RowsAndMissingFillTheBatch(results, items, tags);
  }
}
