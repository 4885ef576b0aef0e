/**
 The asynchronous audience report against the synchronous one. The asynchronous export stages records
 in batches, reads them back page by page and splits them over sheets; the synchronous one builds a map
 in memory. UIDs and codes are numbered in the order they sort; number 0 is the empty string.
 */
module AudienceReport {
  import opened Numbers

  datatype Record = Record(uid: nat, code: nat)

  datatype Campaign = Campaign(id: nat, records: seq<Record>)

  datatype Key = Key(campaign: nat, uid: nat)

  /** One line of a report; delivery status is always unknown. */
  datatype Line = Line(campaign: nat, uid: nat, clicked: bool, action: bool)

  type Table = map<Key, nat>

  // ---------------------------------------------------------------- the in-memory export

  /** The mapping a file stands for: later records replace earlier ones, records without a UID are skipped. */
  function Mapping(records: seq<Record>): (m: map<nat, nat>)
    ensures 0 !in m
  {
    if records == [] then map[]
    else
      var before := Mapping(records[..|records| - 1]);
      var last := records[|records| - 1];
      if last.uid == 0 then before else before[last.uid := last.code]
  }

  lemma {:induction false} MappingGrows(records: seq<Record>, n: nat)
    requires n <= |records|
    ensures Mapping(records[..n]).Keys <= Mapping(records).Keys
    decreases |records|
  {
    if n < |records| {
      MappingGrows(records[..|records| - 1], n);
      assert records[..|records| - 1][..n] == records[..n];
    } else {
      assert records[..n] == records;
    }
  }

  lemma {:induction false} SubsetSize(a: set<nat>, b: set<nat>)
    requires a <= b
    ensures |a| <= |b|
  {
    assert b == a + (b - a);
  }

  datatype Collected = Mapped(uidToCode: map<nat, nat>) | LimitExceeded

  /** Reads the map, and stops at the first UID beyond the limit: exactly when there are more than that. */
  method CollectUids(records: seq<Record>, maxUids: int) returns (r: Collected)
    ensures r == if maxUids > 0 && |Mapping(records)| > maxUids then LimitExceeded else Mapped(Mapping(records))
  {
    var uidToCode: map<nat, nat> := map[];
    for i := 0 to |records|
      invariant uidToCode == Mapping(records[..i])
      invariant maxUids > 0 ==> |uidToCode| <= maxUids
    {
      var record := records[i];
      assert records[..i + 1][..i] == records[..i];
      if record.uid == 0 { continue; }
      if record.uid !in uidToCode && maxUids > 0 && |uidToCode| >= maxUids {
        MappingGrows(records, i + 1);
        SubsetSize(Mapping(records[..i + 1]).Keys, Mapping(records).Keys);
        KeysSize(uidToCode, record.uid, record.code);
        return LimitExceeded;
      }
      KeysSize(uidToCode, record.uid, record.code);
      uidToCode := uidToCode[record.uid := record.code];
    }
    assert records[..|records|] == records;
    return Mapped(uidToCode);
  }

  lemma {:induction false} KeysSize(m: map<nat, nat>, k: nat, v: nat)
    ensures |m[k := v]| == |m| + if k in m then 0 else 1
    ensures |m| == |m.Keys|
  {
  }

  predicate ListsUids(sorted: seq<nat>, m: map<nat, nat>) {
    Ascending(sorted) && (forall x :: x in sorted ==> x in m) && (forall x :: x in m ==> x in sorted)
  }

  /** The in-memory builder: clicks without a code were never loaded. */
  function SyncLines(id: nat, m: map<nat, nat>, sorted: seq<nat>, clicks: set<(nat, nat)>,
      actions: set<(nat, nat)>): (lines: seq<Line>)
    requires ListsUids(sorted, m)
    ensures |lines| == |sorted|
  {
    seq(|sorted|, i requires 0 <= i < |sorted| =>
      assert sorted[i] in sorted;
      Line(id, sorted[i], m[sorted[i]] != 0 && (id, m[sorted[i]]) in clicks, (id, sorted[i]) in actions))
  }

  // ---------------------------------------------------------------- staging

  /** The staging table after one campaign's records, and after several campaigns. */
  function StageOne(t: Table, id: nat, records: seq<Record>): Table {
    if records == [] then t
    else
      var before := StageOne(t, id, records[..|records| - 1]);
      var last := records[|records| - 1];
      if last.uid == 0 then before else before[Key(id, last.uid) := last.code]
  }

  function StageAll(t: Table, campaigns: seq<Campaign>): Table {
    if campaigns == [] then t
    else
      var last := campaigns[|campaigns| - 1];
      StageOne(StageAll(t, campaigns[..|campaigns| - 1]), last.id, last.records)
  }

  /** A batch keeps one row per UID, because one statement may not touch a row twice. */
  predicate OneRowPerUid(batch: seq<Record>, indexes: map<nat, nat>) {
    && (forall uid :: uid in indexes ==> indexes[uid] < |batch| && batch[indexes[uid]].uid == uid)
    && (forall i :: 0 <= i < |batch| ==> batch[i].uid != 0 && batch[i].uid in indexes && indexes[batch[i].uid] == i)
  }

  method AppendStageRow(batch: seq<Record>, indexes: map<nat, nat>, row: Record)
      returns (b: seq<Record>, x: map<nat, nat>)
    requires OneRowPerUid(batch, indexes) && row.uid != 0
    ensures OneRowPerUid(b, x) && |batch| <= |b| <= |batch| + 1
    ensures forall t: Table, id: nat :: StageOne(t, id, b) == StageOne(t, id, batch)[Key(id, row.uid) := row.code]
  {
    if row.uid in indexes {
      var i := indexes[row.uid];
      b, x := batch[i := row], indexes;
      hide StageOne;
      forall t: Table, id: nat
        ensures StageOne(t, id, b) == StageOne(t, id, batch)[Key(id, row.uid) := row.code]
      {
        ReplaceRow(t, id, batch, i, row);
      }
    } else {
      b, x := batch + [row], indexes[row.uid := |batch|];
      hide StageOne;
      forall t: Table, id: nat
        ensures StageOne(t, id, b) == StageOne(t, id, batch)[Key(id, row.uid) := row.code]
      {
        AddRow(t, id, batch, row);
      }
    }
  }

  lemma {:induction false} AddRow(t: Table, id: nat, batch: seq<Record>, row: Record)
    requires row.uid != 0
    ensures StageOne(t, id, batch + [row]) == StageOne(t, id, batch)[Key(id, row.uid) := row.code]
  {
    assert (batch + [row])[..|batch|] == batch;
  }

  /** Overwriting the batch's only row of a UID is the same as writing it again later. */
  lemma {:induction false} ReplaceRow(t: Table, id: nat, batch: seq<Record>, i: nat, row: Record)
    requires i < |batch| && batch[i].uid == row.uid != 0
    requires forall j :: 0 <= j < |batch| && j != i ==> batch[j].uid != row.uid
    ensures StageOne(t, id, batch[i := row]) == StageOne(t, id, batch)[Key(id, row.uid) := row.code]
    decreases |batch|
  {
    var n := |batch| - 1;
    var after := batch[i := row];
    if i < n {
      assert after[..n] == batch[..n][i := row];
      ReplaceRow(t, id, batch[..n], i, row);
    } else {
      assert after[..n] == batch[..n];
    }
  }

  lemma {:induction false} StageInParts(t: Table, id: nat, a: seq<Record>, b: seq<Record>)
    ensures StageOne(t, id, a + b) == StageOne(StageOne(t, id, a), id, b)
    decreases |b|
  {
    if b == [] {
      assert a + b == a;
    } else {
      var n := |b| - 1;
      assert (a + b)[..|a + b| - 1] == a + b[..n];
      StageInParts(t, id, a, b[..n]);
    }
  }

  lemma {:induction false} StageKeepsKeys(t: Table, id: nat, records: seq<Record>)
    ensures t.Keys <= StageOne(t, id, records).Keys && |t| <= |StageOne(t, id, records)|
  {
    if records != [] {
      StageKeepsKeys(t, id, records[..|records| - 1]);
      var before := StageOne(t, id, records[..|records| - 1]);
      var last := records[|records| - 1];
      TableSize(before, Key(id, last.uid), last.code);
    }
  }

  lemma {:induction false} StagePrefixIsSmaller(t: Table, id: nat, records: seq<Record>, n: nat)
    requires n <= |records|
    ensures |StageOne(t, id, records[..n])| <= |StageOne(t, id, records)|
  {
    assert records == records[..n] + records[n..];
    StageInParts(t, id, records[..n], records[n..]);
    StageKeepsKeys(StageOne(t, id, records[..n]), id, records[n..]);
  }

  lemma {:induction false} StageStep(t: Table, id: nat, records: seq<Record>, i: nat)
    requires i < |records|
    ensures
      var before := StageOne(t, id, records[..i]);
      StageOne(t, id, records[..i + 1]) ==
      if records[i].uid == 0 then before else before[Key(id, records[i].uid) := records[i].code]
  {
    assert records[..i + 1][..i] == records[..i];
  }

  lemma {:induction false} EmptyBatch(t: Table, id: nat)
    ensures StageOne(t, id, []) == t && OneRowPerUid([], map[])
  {
  }

  lemma {:induction false} TableSize(t: Table, k: Key, v: nat)
    ensures |t[k := v]| == |t| + if k in t then 0 else 1
  {
  }

  lemma {:induction false} StageAllKeepsSize(t: Table, campaigns: seq<Campaign>, n: nat)
    requires n <= |campaigns|
    ensures |StageAll(t, campaigns[..n])| <= |StageAll(t, campaigns)|
    decreases |campaigns|
  {
    if n < |campaigns| {
      var m := |campaigns| - 1;
      StageAllKeepsSize(t, campaigns[..m], n);
      assert campaigns[..m][..n] == campaigns[..n];
      StageKeepsKeys(StageAll(t, campaigns[..m]), campaigns[m].id, campaigns[m].records);
    } else {
      assert campaigns[..n] == campaigns;
    }
  }

  datatype Staged = Done | TooLarge | NoData

  predicate HasData(c: Campaign) {
    exists i :: 0 <= i < |c.records| && c.records[i].uid != 0
  }

  class Staging {
    var table: Table
    var stagedRows: nat
    const maxRows: nat
    const batchSize: nat

    constructor (maxRows: nat, batchSize: nat)
      requires batchSize > 0
      ensures table == map[] && stagedRows == 0 && this.maxRows == maxRows && this.batchSize == batchSize
    {
      table, stagedRows := map[], 0;
      this.maxRows, this.batchSize := maxRows, batchSize;
    }

    /** One INSERT .. ON CONFLICT statement; the result is the number of rows that were new. */
    method UpsertStageBatch(id: nat, batch: seq<Record>, ghost indexes: map<nat, nat>) returns (inserted: nat)
      requires OneRowPerUid(batch, indexes)
      modifies this`table
      ensures table == StageOne(old(table), id, batch)
      ensures |table| == old(|table|) + inserted
    {
      inserted := 0;
      for i := 0 to |batch|
        invariant table == StageOne(old(table), id, batch[..i])
        invariant |table| == old(|table|) + inserted
      {
        assert batch[..i + 1][..i] == batch[..i];
        var key := Key(id, batch[i].uid);
        TableSize(table, key, batch[i].code);
        if key !in table {
          inserted := inserted + 1;
        }
        table := table[key := batch[i].code];
      }
      assert batch[..|batch|] == batch;
    }

    /** Writes the batch, and reports the row limit the moment the exact count passes it. */
    method Flush(id: nat, batch: seq<Record>, ghost indexes: map<nat, nat>) returns (ok: bool)
      requires OneRowPerUid(batch, indexes) && stagedRows == |table|
      modifies this`table, this`stagedRows
      ensures table == StageOne(old(table), id, batch) && stagedRows == |table|
      ensures ok <==> batch == [] || |table| <= maxRows
    {
      if batch == [] { return true; }
      var inserted := UpsertStageBatch(id, batch, indexes);
      stagedRows := stagedRows + inserted;
      return stagedRows <= maxRows;
    }

    /** One campaign's file, visited record by record. */
    method StageCampaign(c: Campaign) returns (r: Staged)
      requires stagedRows == |table| <= maxRows && batchSize > 0
      modifies this`table, this`stagedRows
      ensures stagedRows == |table|
      ensures r.Done? ==> HasData(c) && table == StageOne(old(table), c.id, c.records) && |table| <= maxRows
      ensures r.NoData? ==> !HasData(c)
      ensures r.TooLarge? ==> |StageOne(old(table), c.id, c.records)| > maxRows
    {
      hide StageOne, OneRowPerUid;
      var batch: seq<Record>, indexes: map<nat, nat> := [], map[];
      EmptyBatch(table, c.id);
      assert c.records[..0] == [];
      var seen := false;
      var i := 0;
      while i < |c.records|
        invariant 0 <= i <= |c.records|
        invariant OneRowPerUid(batch, indexes) && |batch| < batchSize
        invariant stagedRows == |table| <= maxRows
        invariant StageOne(table, c.id, batch) == StageOne(old(table), c.id, c.records[..i])
        invariant seen <==> exists k :: 0 <= k < i && c.records[k].uid != 0
      {
        var record := c.records[i];
        StageStep(old(table), c.id, c.records, i);
        if record.uid != 0 {
          seen := true;
          batch, indexes := AppendStageRow(batch, indexes, record);
          if |batch| == batchSize {
            var ok := Flush(c.id, batch, indexes);
            if !ok {
              StagePrefixIsSmaller(old(table), c.id, c.records, i + 1);
              return TooLarge;
            }
            batch, indexes := [], map[];
            EmptyBatch(table, c.id);
          }
        }
        i := i + 1;
      }
      assert c.records[..|c.records|] == c.records;
      if !seen { return NoData; }
      EmptyBatch(table, c.id);
      var ok := Flush(c.id, batch, indexes);
      return if ok then Done else TooLarge;
    }

    /**
     Staging from an empty table: the table ends up as all records in order would leave it, whatever the
     batch boundaries, and when every campaign has data the row limit is reported iff the number of
     distinct (campaign, UID) pairs exceeds it.
     */
    method Stage(campaigns: seq<Campaign>) returns (r: Staged)
      requires table == map[] && stagedRows == 0 && batchSize > 0
      modifies this`table, this`stagedRows
      ensures r.Done? ==> table == StageAll(map[], campaigns)
      ensures r.NoData? ==> exists k :: 0 <= k < |campaigns| && !HasData(campaigns[k])
      ensures (forall k :: 0 <= k < |campaigns| ==> HasData(campaigns[k])) ==>
        (r.TooLarge? <==> |StageAll(map[], campaigns)| > maxRows)
    {
      for n := 0 to |campaigns|
        invariant stagedRows == |table| <= maxRows && table == StageAll(map[], campaigns[..n])
      {
        assert campaigns[..n + 1][..n] == campaigns[..n];
        r := StageCampaign(campaigns[n]);
        if !r.Done? {
          StageAllKeepsSize(map[], campaigns, n + 1);
          return;
        }
      }
      assert campaigns[..|campaigns|] == campaigns;
      return Done;
    }
  }

  // ---------------------------------------------------------------- writing pages into sheets

  predicate Less(a: Key, b: Key) {
    a.campaign < b.campaign || (a.campaign == b.campaign && a.uid < b.uid)
  }

  predicate Ordered(keys: seq<Key>) {
    forall i, j :: 0 <= i < j < |keys| ==> Less(keys[i], keys[j])
  }

  /** The order in which the database returns a table's rows. */
  predicate Listing(keys: seq<Key>, t: Table) {
    Ordered(keys) && (forall k :: k in keys ==> k in t) && (forall k :: k in t ==> k in keys)
  }

  /** Keys past a position, by campaign and then UID. */
  function After(keys: seq<Key>, position: Key): (rest: seq<Key>)
    ensures forall k :: k in rest ==> k in keys
  {
    if keys == [] then []
    else if Less(position, keys[0]) then [keys[0]] + After(keys[1..], position)
    else After(keys[1..], position)
  }

  lemma {:induction false} AllAfter(keys: seq<Key>, position: Key)
    requires forall i :: 0 <= i < |keys| ==> Less(position, keys[i])
    ensures After(keys, position) == keys
  {
    if keys != [] {
      AllAfter(keys[1..], position);
    }
  }

  /** Asking for rows after one row of the listing continues behind it. */
  lemma {:induction false} AfterContinues(keys: seq<Key>, i: nat)
    requires Ordered(keys) && i < |keys|
    ensures After(keys, keys[i]) == keys[i + 1..]
    decreases |keys|
  {
    if i == 0 {
      AllAfter(keys[1..], keys[0]);
    } else {
      assert Less(keys[0], keys[i]);
      AfterContinues(keys[1..], i - 1);
      assert keys[1..][i - 1] == keys[i] && keys[1..][i..] == keys[i + 1..];
    }
  }

  function Page(keys: seq<Key>, position: Key, limit: nat): seq<Key> {
    var rest := After(keys, position);
    if |rest| <= limit then rest else rest[..limit]
  }

  /** One line of the asynchronous report, from the clicks and actions looked up for its page. */
  function AsyncLine(t: Table, k: Key, clicks: set<(nat, nat)>, actions: set<(nat, nat)>): Line
    requires k in t
  {
    Line(k.campaign, k.uid, (k.campaign, t[k]) in clicks, (k.campaign, k.uid) in actions)
  }

  function AsyncLines(t: Table, keys: seq<Key>, clicks: set<(nat, nat)>, actions: set<(nat, nat)>): (lines: seq<Line>)
    requires forall i :: 0 <= i < |keys| ==> keys[i] in t
    ensures |lines| == |keys|
  {
    seq(|keys|, i requires 0 <= i < |keys| => AsyncLine(t, keys[i], clicks, actions))
  }

  datatype States = States(clicked: set<(nat, nat)>, acted: set<(nat, nat)>)

  /** Looks a page's codes and UIDs up: what is found is what is asked for and stored. */
  method LiveStates(t: Table, page: seq<Key>, clicks: set<(nat, nat)>, actions: set<(nat, nat)>) returns (s: States)
    requires forall i :: 0 <= i < |page| ==> page[i] in t
    ensures forall i :: 0 <= i < |page| ==>
      && ((page[i].campaign, t[page[i]]) in s.clicked <==> (page[i].campaign, t[page[i]]) in clicks)
      && ((page[i].campaign, page[i].uid) in s.acted <==> (page[i].campaign, page[i].uid) in actions)
  {
    var codes: set<(nat, nat)>, uids: set<(nat, nat)> := {}, {};
    for i := 0 to |page|
      invariant forall k ::
        0 <= k < i ==> (page[k].campaign, t[page[k]]) in codes && (page[k].campaign, page[k].uid) in uids
    {
      codes := codes + {(page[i].campaign, t[page[i]])};
      uids := uids + {(page[i].campaign, page[i].uid)};
    }
    return States(codes * clicks, uids * actions);
  }

  function Flatten(sheets: seq<seq<Line>>): (lines: seq<Line>) {
    if sheets == [] then [] else Flatten(sheets[..|sheets| - 1]) + sheets[|sheets| - 1]
  }

  /** Every sheet but the last is full, and none is over-full. */
  predicate WellSplit(sheets: seq<seq<Line>>, perSheet: nat) {
    && sheets != []
    && (forall i :: 0 <= i < |sheets| - 1 ==> |sheets[i]| == perSheet)
    && |sheets[|sheets| - 1]| <= perSheet
  }

  /** Appends one line, on a new sheet when the last one is full. */
  method WriteLine(sheets: seq<seq<Line>>, line: Line, perSheet: nat) returns (r: seq<seq<Line>>)
    requires perSheet > 0 && WellSplit(sheets, perSheet)
    ensures WellSplit(r, perSheet) && Flatten(r) == Flatten(sheets) + [line]
  {
    r := sheets;
    if |r[|r| - 1]| >= perSheet {
      r := r + [[]];
      assert r[..|r| - 1] == sheets;
    }
    ghost var before := r;
    var last := r[|r| - 1];
    r := r[|r| - 1 := last + [line]];
    assert r[..|r| - 1] == before[..|before| - 1];
    assert Flatten(before) == Flatten(sheets);
  }

  lemma {:induction false} LinesAppend(t: Table, a: seq<Key>, k: Key, clicks: set<(nat, nat)>, actions: set<(nat, nat)>)
    requires (forall i :: 0 <= i < |a| ==> a[i] in t) && k in t
    ensures AsyncLines(t, a + [k], clicks, actions) == AsyncLines(t, a, clicks, actions)
      + [AsyncLine(t, k, clicks, actions)]
  {
  }

  /** Writes one page's lines. */
  method WritePage(
    sheets: seq<seq<Line>>, t: Table, page: seq<Key>, clicks: set<(nat, nat)>, actions: set<(nat, nat)>, perSheet: nat)
    returns (r: seq<seq<Line>>)
    requires perSheet > 0 && WellSplit(sheets, perSheet) && forall i :: 0 <= i < |page| ==> page[i] in t
    ensures WellSplit(r, perSheet) && Flatten(r) == Flatten(sheets) + AsyncLines(t, page, clicks, actions)
  {
    hide Flatten, WellSplit;
    var s := LiveStates(t, page, clicks, actions);
    r := sheets;
    assert Flatten(sheets) + [] == Flatten(sheets);
    for i := 0 to |page|
      invariant WellSplit(r, perSheet) && Flatten(r) == Flatten(sheets) + AsyncLines(t, page[..i], clicks, actions)
    {
      var k := page[i];
      var line := Line(k.campaign, k.uid, (k.campaign, t[k]) in s.clicked, (k.campaign, k.uid) in s.acted);
      LinesAppend(t, page[..i], k, clicks, actions);
      assert page[..i + 1] == page[..i] + [k];
      r := WriteLine(r, line, perSheet);
    }
    assert page[..|page|] == page;
  }

  lemma {:induction false} PageIsNext(t: Table, keys: seq<Key>, position: Key, start: nat, limit: nat)
    requires Listing(keys, t) && limit > 0 && start <= |keys| && After(keys, position) == keys[start..]
    ensures
      var page := Page(keys, position, limit);
      var end := start + |page|;
      && (page == [] <==> start == |keys|)
      && end <= |keys| && page == keys[start..end]
      && (forall i :: 0 <= i < |page| ==> page[i] in t)
      && (page != [] ==> After(keys, page[|page| - 1]) == keys[end..])
  {
    var page := Page(keys, position, limit);
    assert forall i :: 0 <= i < |page| ==> page[i] == keys[start + i] && keys[start + i] in keys;
    if page != [] {
      AfterContinues(keys, start + |page| - 1);
    }
  }

  lemma {:induction false} LinesConcat(t: Table, keys: seq<Key>, start: nat, end: nat, clicks: set<(nat, nat)>,
      actions: set<(nat, nat)>)
    requires start <= end <= |keys| && forall i :: 0 <= i < |keys| ==> keys[i] in t
    ensures
      AsyncLines(t, keys[..end], clicks, actions) ==
      AsyncLines(t, keys[..start], clicks, actions) + AsyncLines(t, keys[start..end], clicks, actions)
  {
  }

  lemma {:induction false} BeforeAll(t: Table, keys: seq<Key>)
    requires Listing(keys, t) && forall k :: k in t ==> k.campaign > 0
    ensures After(keys, Key(0, 0)) == keys && forall i :: 0 <= i < |keys| ==> keys[i] in t
  {
    assert forall i :: 0 <= i < |keys| ==> keys[i] in keys;
    AllAfter(keys, Key(0, 0));
  }

  lemma {:induction false} OneEmptySheet(perSheet: nat)
    ensures WellSplit([[]], perSheet) && Flatten([[]]) == []
  {
  }

  /**
   The page loop: it ends, and the sheets together hold exactly one line per staged row in order,
   wherever the pages and sheets are cut.
   */
  method Write(t: Table, keys: seq<Key>, clicks: set<(nat, nat)>, actions: set<(nat, nat)>, pageSize: nat,
      perSheet: nat)
    returns (sheets: seq<seq<Line>>, total: nat)
    requires Listing(keys, t) && pageSize > 0 && perSheet > 0
    requires forall k :: k in t ==> k.campaign > 0
    ensures WellSplit(sheets, perSheet)
    ensures (forall i :: 0 <= i < |keys| ==> keys[i] in t) && Flatten(sheets) == AsyncLines(t, keys, clicks, actions)
    ensures total == |t|
  {
    hide *;
    BeforeAll(t, keys);
    OneEmptySheet(perSheet);
    ListingSize(keys, t);
    sheets, total := [[]], 0;
    var position := Key(0, 0);
    while true
      invariant total <= |keys| && WellSplit(sheets, perSheet)
      invariant After(keys, position) == keys[total..]
      invariant Flatten(sheets) == AsyncLines(t, keys[..total], clicks, actions)
      decreases |keys| - total
    {
      var page := Page(keys, position, pageSize);
      PageIsNext(t, keys, position, total, pageSize);
      if |page| == 0 { break; }
      sheets := WritePage(sheets, t, page, clicks, actions, perSheet);
      LinesConcat(t, keys, total, total + |page|, clicks, actions);
      total := total + |page|;
      position := page[|page| - 1];
    }
    assert keys[..total] == keys;
  }

  lemma {:induction false} ListingSize(keys: seq<Key>, t: Table)
    requires Listing(keys, t)
    ensures |keys| == |t|
  {
    OrderedSize(keys);
    assert (set k | k in keys) == t.Keys;
    assert |t| == |t.Keys|;
  }

  lemma {:induction false} OrderedSize(keys: seq<Key>)
    requires Ordered(keys)
    ensures |set k | k in keys| == |keys|
  {
    if keys != [] {
      var front, last := keys[..|keys| - 1], keys[|keys| - 1];
      OrderedSize(front);
      assert last !in front;
      assert keys == front + [last];
      assert (set k | k in keys) == (set k | k in front) + {last};
    }
  }

  // ---------------------------------------------------------------- refinement

  predicate DistinctIds(campaigns: seq<Campaign>) {
    && (forall i, j :: 0 <= i < j < |campaigns| ==> campaigns[i].id != campaigns[j].id)
    && (forall i :: 0 <= i < |campaigns| ==> campaigns[i].id > 0)
  }

  lemma {:induction false} StageOneHolds(t: Table, id: nat, records: seq<Record>, k: Key)
    ensures
      var after := StageOne(t, id, records);
      if k.campaign == id && k.uid in Mapping(records) then k in after && after[k] == Mapping(records)[k.uid]
      else (k in after <==> k in t) && (k in t ==> after[k] == t[k])
  {
    if records != [] {
      StageOneHolds(t, id, records[..|records| - 1], k);
    }
  }

  /** The staging table holds, for each campaign, exactly its file's mapping. */
  lemma {:induction false} StageAllHolds(campaigns: seq<Campaign>, k: Key)
    requires DistinctIds(campaigns)
    ensures k in StageAll(map[], campaigns) ==> exists c :: 0 <= c < |campaigns| && campaigns[c].id == k.campaign
    ensures forall c :: 0 <= c < |campaigns| && campaigns[c].id == k.campaign ==>
      var m := Mapping(campaigns[c].records);
      && (k in StageAll(map[], campaigns) <==> k.uid in m)
      && (k.uid in m ==> StageAll(map[], campaigns)[k] == m[k.uid])
  {
    if campaigns != [] {
      var n := |campaigns| - 1;
      StageAllHolds(campaigns[..n], k);
      StageOneHolds(StageAll(map[], campaigns[..n]), campaigns[n].id, campaigns[n].records, k);
    }
  }

  function OfCampaign(lines: seq<Line>, id: nat): (r: seq<Line>) {
    if lines == [] then []
    else OfCampaign(lines[..|lines| - 1], id) + if lines[|lines| - 1].campaign == id then [lines[|lines| - 1]] else []
  }

  /** The UIDs of one campaign among ordered keys. */
  function UidsOf(keys: seq<Key>, id: nat): (uids: seq<nat>) {
    if keys == [] then []
    else UidsOf(keys[..|keys| - 1], id) + if keys[|keys| - 1].campaign == id then [keys[|keys| - 1].uid] else []
  }

  lemma {:induction false} UidsOfAreSorted(keys: seq<Key>, id: nat)
    requires Ordered(keys)
    ensures Ascending(UidsOf(keys, id))
    ensures forall x: nat :: x in UidsOf(keys, id) <==> Key(id, x) in keys
  {
    if keys != [] {
      var front, last := keys[..|keys| - 1], keys[|keys| - 1];
      UidsOfAreSorted(front, id);
      assert keys == front + [last];
      var before := UidsOf(front, id);
      forall i | 0 <= i < |before|
        ensures last.campaign == id ==> before[i] < last.uid
      {
        assert before[i] in before;
        assert Key(id, before[i]) in front;
      }
    }
  }

  lemma {:induction false} CampaignLines(
    t: Table, keys: seq<Key>, clicks: set<(nat, nat)>, actions: set<(nat, nat)>, id: nat)
    requires forall i :: 0 <= i < |keys| ==> keys[i] in t
    ensures
      var uids := UidsOf(keys, id);
      var lines := OfCampaign(AsyncLines(t, keys, clicks, actions), id);
      |lines| == |uids| &&
      forall i ::
        0 <= i < |uids| ==> Key(id, uids[i]) in t && lines[i] == AsyncLine(t, Key(id, uids[i]), clicks, actions)
  {
    if keys != [] {
      var front := keys[..|keys| - 1];
      CampaignLines(t, front, clicks, actions, id);
      assert keys == front + [keys[|keys| - 1]];
      LinesAppend(t, front, keys[|keys| - 1], clicks, actions);
      var lines := AsyncLines(t, keys, clicks, actions);
      assert lines[..|lines| - 1] == AsyncLines(t, front, clicks, actions);
    }
  }

  /** The record that counts for its UID: no later one has the same UID. */
  predicate Latest(records: seq<Record>, i: nat) {
    i < |records| && records[i].uid != 0 && forall j :: i < j < |records| ==> records[j].uid != records[i].uid
  }

  lemma {:induction false} MappingHoldsTheLatest(records: seq<Record>)
    ensures forall i :: 0 <= i < |records| && Latest(records, i) ==>
      records[i].uid in Mapping(records) && Mapping(records)[records[i].uid] == records[i].code
    ensures forall uid :: uid in Mapping(records) ==> exists i: nat :: Latest(records, i) && records[i].uid == uid
  {
    if records != [] {
      var n := |records| - 1;
      MappingHoldsTheLatest(records[..n]);
      LatestOfFront(records);
      MappingStep(records);
      hide Mapping, Latest;
      forall uid | uid in Mapping(records)
        ensures exists i: nat :: Latest(records, i) && records[i].uid == uid
      {
        if records[n].uid == uid {
          assert Latest(records, n);
        } else {
          var i: nat :| Latest(records[..n], i) && records[..n][i].uid == uid;
          assert Latest(records, i);
        }
      }
    }
  }

  lemma {:induction false} LatestOfFront(records: seq<Record>)
    requires records != []
    ensures
      var n := |records| - 1;
      && (Latest(records, n) <==> records[n].uid != 0)
      && forall i :: 0 <= i < n ==> (Latest(records, i) <==>
            Latest(records[..n], i) && records[..n][i] == records[i] && records[i].uid != records[n].uid)
  {
  }

  lemma {:induction false} MappingStep(records: seq<Record>)
    requires records != []
    ensures
      var last := records[|records| - 1];
      var before := Mapping(records[..|records| - 1]);
      Mapping(records) == if last.uid == 0 then before else before[last.uid := last.code]
    ensures 0 !in Mapping(records)
  {
  }

  /** The line that the asynchronous report owes to a record. */
  predicate ReportsRecord(line: Line, c: Campaign, i: nat, clicks: set<(nat, nat)>, actions: set<(nat, nat)>)
    requires i < |c.records|
  {
    && line.campaign == c.id && line.uid == c.records[i].uid
    && (line.clicked <==> (c.id, c.records[i].code) in clicks)
    && (line.action <==> (c.id, c.records[i].uid) in actions)
  }

  /** A line for the latest record of every UID of every campaign. */
  ghost predicate ReportsAll(lines: seq<Line>, campaigns: seq<Campaign>, clicks: set<(nat, nat)>,
      actions: set<(nat, nat)>)
  {
    forall c: nat, i: nat :: c < |campaigns| && Latest(campaigns[c].records, i) ==>
      exists n :: 0 <= n < |lines| && ReportsRecord(lines[n], campaigns[c], i, clicks, actions)
  }

  /** A line for one of these records. */
  ghost predicate ReportsSome(line: Line, campaigns: seq<Campaign>, clicks: set<(nat, nat)>, actions: set<(nat, nat)>)
  {
    exists c: nat, i: nat ::
      c < |campaigns| && Latest(campaigns[c].records, i) && ReportsRecord(line, campaigns[c], i, clicks, actions)
  }

  /** By campaign, then UID. */
  predicate InReportOrder(lines: seq<Line>) {
    forall m, n :: 0 <= m < n < |lines| ==>
      lines[m].campaign < lines[n].campaign ||
      (lines[m].campaign == lines[n].campaign && lines[m].uid < lines[n].uid)
  }

  /**
   The asynchronous report in terms of the files: one line for the latest record of every UID of every
   campaign, and no other, in order.
   */
  lemma {:induction false} ReportIsOfTheRecords(
    campaigns: seq<Campaign>, keys: seq<Key>, clicks: set<(nat, nat)>, actions: set<(nat, nat)>)
    requires DistinctIds(campaigns) && Listing(keys, StageAll(map[], campaigns))
    ensures forall n :: 0 <= n < |keys| ==> keys[n] in StageAll(map[], campaigns)
    ensures
      var lines := AsyncLines(StageAll(map[], campaigns), keys, clicks, actions);
      && ReportsAll(lines, campaigns, clicks, actions)
      && (forall n :: 0 <= n < |lines| ==> ReportsSome(lines[n], campaigns, clicks, actions))
      && InReportOrder(lines)
  {
    hide StageAll, Mapping, DistinctIds, ReportsRecord, ReportsSome;
    assert forall n :: 0 <= n < |keys| ==> keys[n] in keys;
    var lines := AsyncLines(StageAll(map[], campaigns), keys, clicks, actions);
    forall c: nat, i: nat | c < |campaigns| && Latest(campaigns[c].records, i)
      ensures exists n :: 0 <= n < |lines| && ReportsRecord(lines[n], campaigns[c], i, clicks, actions)
    {
      var n := RecordIsReported(campaigns, keys, clicks, actions, c, i);
    }
    forall n | 0 <= n < |lines|
      ensures ReportsSome(lines[n], campaigns, clicks, actions)
    {
      LineIsOfARecord(campaigns, keys, clicks, actions, n);
    }
    forall m, n | 0 <= m < n < |lines|
      ensures lines[m].campaign < lines[n].campaign ||
        (lines[m].campaign == lines[n].campaign && lines[m].uid < lines[n].uid)
    {
      assert Less(keys[m], keys[n]);
    }
  }

  lemma {:induction false} RecordIsReported(campaigns: seq<Campaign>, keys: seq<Key>, clicks: set<(nat, nat)>,
      actions: set<(nat, nat)>, c: nat, i: nat) returns (n: nat)
    requires DistinctIds(campaigns) && Listing(keys, StageAll(map[], campaigns))
    requires forall n :: 0 <= n < |keys| ==> keys[n] in StageAll(map[], campaigns)
    requires c < |campaigns| && Latest(campaigns[c].records, i)
    ensures n < |keys|
    ensures ReportsRecord(
      AsyncLines(StageAll(map[], campaigns), keys, clicks, actions)[n], campaigns[c], i, clicks, actions)
  {
    hide StageAll, Mapping, DistinctIds;
    var k := Key(campaigns[c].id, campaigns[c].records[i].uid);
    StageAllHolds(campaigns, k);
    MappingHoldsTheLatest(campaigns[c].records);
    hide Latest;
    n :| 0 <= n < |keys| && keys[n] == k;
  }

  lemma {:induction false} LineIsOfARecord(campaigns: seq<Campaign>, keys: seq<Key>, clicks: set<(nat, nat)>,
      actions: set<(nat, nat)>, n: nat)
    requires DistinctIds(campaigns) && n < |keys|
    requires forall n :: 0 <= n < |keys| ==> keys[n] in StageAll(map[], campaigns)
    ensures ReportsSome(
      AsyncLines(StageAll(map[], campaigns), keys, clicks, actions)[n], campaigns, clicks, actions)
  {
    hide StageAll, Mapping, DistinctIds;
    var c := CampaignOfKey(campaigns, keys[n]);
    StageAllHolds(campaigns, keys[n]);
    MappingHoldsTheLatest(campaigns[c].records);
    var i: nat :| Latest(campaigns[c].records, i) && campaigns[c].records[i].uid == keys[n].uid;
    var line := AsyncLines(StageAll(map[], campaigns), keys, clicks, actions)[n];
    hide Latest;
    assert ReportsRecord(line, campaigns[c], i, clicks, actions);
  }

  lemma {:induction false} CampaignOfKey(campaigns: seq<Campaign>, k: Key) returns (c: nat)
    requires DistinctIds(campaigns) && k in StageAll(map[], campaigns)
    ensures c < |campaigns| && campaigns[c].id == k.campaign
  {
    StageAllHolds(campaigns, k);
    c :| 0 <= c < |campaigns| && campaigns[c].id == k.campaign;
  }

  /** A click without a code is recorded for the campaign, and one of its UIDs has no code. */
  predicate EmptyCodeClicked(id: nat, m: map<nat, nat>, clicks: set<(nat, nat)>) {
    (id, 0) in clicks && exists uid :: uid in m && m[uid] == 0
  }

  /**
   For one file snapshot, click set and action set, the asynchronous report's lines of a campaign are the
   synchronous builder's lines in the same order, unless clicks without a code meet a UID without a code:
   the asynchronous query matches them, the synchronous one leaves them out.
   */
  lemma {:induction false} AsyncRefinesSyncIff(
    campaigns: seq<Campaign>, keys: seq<Key>, sorted: seq<nat>, c: nat, clicks: set<(nat, nat)>,
      actions: set<(nat, nat)>)
    requires DistinctIds(campaigns) && c < |campaigns| && Listing(keys, StageAll(map[], campaigns))
    requires ListsUids(sorted, Mapping(campaigns[c].records))
    ensures
      var id, m := campaigns[c].id, Mapping(campaigns[c].records);
      OfCampaign(AsyncLines(StageAll(map[], campaigns), keys, clicks, actions), id) ==
        SyncLines(id, m, sorted, clicks, actions)
      <==> !EmptyCodeClicked(id, m, clicks)
  {
    hide StageAll, Mapping, AsyncLines, OfCampaign, UidsOf;
    var t := StageAll(map[], campaigns);
    var id, m := campaigns[c].id, Mapping(campaigns[c].records);
    forall x: nat
      ensures Key(id, x) in t <==> x in m
      ensures x in m ==> t[Key(id, x)] == m[x]
    {
      StageAllHolds(campaigns, Key(id, x));
    }
    UidsOfAreSorted(keys, id);
    assert Elements(UidsOf(keys, id)) == Elements(sorted);
    AscendingIsUnique(UidsOf(keys, id), sorted);
    CampaignLines(t, keys, clicks, actions, id);
    var async, sync := OfCampaign(AsyncLines(t, keys, clicks, actions), id), SyncLines(id, m, sorted, clicks, actions);
    forall i | 0 <= i < |sorted|
      ensures async[i] == sync[i] <==> !((id, 0) in clicks && m[sorted[i]] == 0)
    {
      assert sorted[i] in sorted;
    }
    if EmptyCodeClicked(id, m, clicks) {
      var uid :| uid in m && m[uid] == 0;
      assert uid in sorted;
      var i :| 0 <= i < |sorted| && sorted[i] == uid;
      assert async[i] != sync[i];
    } else {
      forall i | 0 <= i < |sorted|
        ensures async[i] == sync[i]
      {
        assert sorted[i] in sorted;
      }
    }
  }

  /** A click recorded without a code, and an audience member without one: the two reports differ. */
  lemma {:induction false} EmptyCodeDiffers()
    ensures
      var campaigns := [Campaign(1, [Record(5, 0)])];
      var t := StageAll(map[], campaigns);
      Listing([Key(1, 5)], t) && ListsUids([5], Mapping(campaigns[0].records)) &&
      AsyncLines(t, [Key(1, 5)], {(1, 0)}, {}) == [Line(1, 5, true, false)] &&
      SyncLines(1, Mapping(campaigns[0].records), [5], {(1, 0)}, {}) == [Line(1, 5, false, false)]
  {
  }
}
