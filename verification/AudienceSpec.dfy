/**
 Building the audience specification from catalogue rows, validating a cached one, and serving it. The
 rows come from a database whose text values hold no NUL byte, which the builder's joined keys rely on.
 */
module AudienceSpec {
  import opened AllocationKey
  import opened Numbers
  import opened Wrappers

  const TWO_64: nat := 0x1_0000_0000_0000_0000
  const MAX_INT: int := 0x7FFF_FFFF_FFFF_FFFF

  type Int64 = n: int | -MAX_INT - 1 <= n <= MAX_INT

  /** Statistics of one leaf: users by colour, and the other counts, which are only compared. */
  datatype Stats = Stats(black: Int64, white: Int64, pink: Int64, others: seq<Int64>)

  datatype Row = Row(tag: nat, level1: string, level2: string, level3: string, statsFound: bool, stats: Stats)

  datatype Path = Path(level1: string, level2: string, level3: string)

  datatype SpecItem = SpecItem(tags: seq<string>, available: nat, stats: Stats)

  type Spec = map<string, map<string, map<string, SpecItem>>>

  // ---------------------------------------------------------------- trimming

  /** Unicode white space. */
  predicate IsSpace(c: char) {
    || '\t' <= c <= '\r' || c == ' ' || c == '\U{85}' || c == '\U{A0}' || c == '\U{1680}'
    || '\U{2000}' <= c <= '\U{200A}' || c == '\U{2028}' || c == '\U{2029}' || c == '\U{202F}' || c == '\U{205F}'
    || c == '\U{3000}'
  }

  /** A text with nothing but white space cut off, in front and behind. */
  ghost predicate TrimmedFrom(t: string, s: string) {
    exists i: nat, j: nat :: CutTo(t, s, i, j)
  }

  predicate CutTo(t: string, s: string, i: nat, j: nat) {
    && i <= j <= |s| && t == s[i..j]
    && (forall k :: 0 <= k < i ==> IsSpace(s[k])) && (forall k :: j <= k < |s| ==> IsSpace(s[k]))
  }

  lemma {:induction false} TrimFront(t: string, s: string)
    requires s != "" && IsSpace(s[0]) && TrimmedFrom(t, s[1..])
    ensures TrimmedFrom(t, s)
  {
    var i: nat, j: nat :| CutTo(t, s[1..], i, j);
    hide IsSpace;
    var rest := s[1..];
    assert s[i + 1..j + 1] == rest[i..j];
    forall k | 0 <= k < |s| && (k < i + 1 || j + 1 <= k)
      ensures IsSpace(s[k])
    {
      assert k > 0 ==> s[k] == rest[k - 1];
    }
    assert CutTo(t, s, i + 1, j + 1);
  }

  lemma {:induction false} TrimBack(t: string, s: string)
    requires s != "" && IsSpace(s[|s| - 1]) && TrimmedFrom(t, s[..|s| - 1])
    ensures TrimmedFrom(t, s)
  {
    var i: nat, j: nat :| CutTo(t, s[..|s| - 1], i, j);
    hide IsSpace;
    assert forall k :: 0 <= k < |s| - 1 ==> s[k] == s[..|s| - 1][k];
    assert CutTo(t, s, i, j);
  }

  function Trim(s: string): (t: string)
    ensures t != "" ==> !IsSpace(t[0]) && !IsSpace(t[|t| - 1])
    ensures |t| <= |s| && (s != "" && !IsSpace(s[0]) && !IsSpace(s[|s| - 1]) ==> t == s)
    ensures NUL !in s ==> NUL !in t
  {
    if s == "" then ""
    else if IsSpace(s[0]) then Trim(s[1..])
    else if IsSpace(s[|s| - 1]) then Trim(s[..|s| - 1])
    else s
  }

  /** Trimming cuts off white space and nothing else. */
  lemma {:induction false} TrimCutsWhiteSpace(s: string)
    ensures TrimmedFrom(Trim(s), s)
    decreases |s|
  {
    hide TrimmedFrom;
    if s == "" {
      Untrimmed(s);
    } else if IsSpace(s[0]) {
      TrimCutsWhiteSpace(s[1..]);
      TrimFront(Trim(s), s);
    } else if IsSpace(s[|s| - 1]) {
      TrimCutsWhiteSpace(s[..|s| - 1]);
      TrimBack(Trim(s), s);
    } else {
      Untrimmed(s);
    }
  }

  lemma {:induction false} Untrimmed(s: string)
    ensures TrimmedFrom(s, s)
  {
    assert CutTo(s, s, 0, |s|);
  }

  // ---------------------------------------------------------------- capacity

  predicate Negative(s: Stats) {
    s.black < 0 || s.white < 0 || s.pink < 0 || exists i :: 0 <= i < |s.others| && s.others[i] < 0
  }

  /** Unsigned addition that reports a wrapped sum. */
  function CheckedAdd(a: nat, b: nat): (r: Option<nat>)
    requires a < TWO_64 && b < TWO_64
    ensures r.Some? <==> a + b < TWO_64
    ensures r.Some? ==> r.value == a + b
  {
    var sum := (a + b) % TWO_64;
    if sum < a then None else Some(sum)
  }

  /** Reachable users: SMS reaches white and a third of pink, the other platforms everybody. */
  function Reach(s: Stats, sms: bool): int {
    if sms then s.white + s.pink / 3 else s.black + s.white + s.pink
  }

  /** The capacity is the reach whenever that fits a signed integer; no other sum is ever returned. */
  function Capacity(s: Stats, sms: bool): (r: Option<nat>)
    ensures r.Some? <==>
      s.black >= 0 && s.white >= 0 && s.pink >= 0 && (forall i :: 0 <= i < |s.others| ==> s.others[i] >= 0) &&
      Reach(s, sms) <= 0x7FFF_FFFF_FFFF_FFFF
    ensures r.Some? ==> r.value == Reach(s, sms)
  {
    if Negative(s) then None
    else
      var total :=
        if sms then CheckedAdd(s.white, s.pink / 3)
        else
          match CheckedAdd(s.black, s.white)
          case None => None
          case Some(two) => CheckedAdd(two, s.pink);
      if total.None? || total.value > MAX_INT then None else total
  }

  // ---------------------------------------------------------------- rows and leaves

  /** What the builder relies on the database for: ids within their column's range, no NUL in a joined text. */
  predicate Storable(row: Row) {
    row.tag < TWO_64 && NUL !in row.level1 && NUL !in row.level2
  }

  type StoredRow = row: Row | Storable(row) witness Row(1, "a", "b", "c", true, Stats(0, 0, 0, []))

  datatype Parsed = Parsed(path: Path, tag: nat, capacity: nat, stats: Stats)

  /** The tests on one row. */
  function ParseRow(row: StoredRow, sms: bool): (r: Option<Parsed>)
    ensures r.Some? ==> Clean(r.value.path)
  {
    var path := Path(Trim(row.level1), Trim(row.level2), Trim(row.level3));
    if row.tag == 0 || path.level1 == "" || path.level2 == "" || path.level3 == "" then None
    else if !row.statsFound then None
    else
      match Capacity(row.stats, sms)
      case None => None
      case Some(capacity) => Some(Parsed(path, row.tag, capacity, row.stats))
  }

  /** Two rows of one leaf must carry the same statistics. */
  predicate Agree(p: Parsed, q: Parsed) {
    p.path == q.path ==> p.stats == q.stats && p.capacity == q.capacity
  }

  /** The rows a specification can be built from: at least one, all valid, of one mind about each leaf. */
  predicate Buildable(rows: seq<StoredRow>, sms: bool) {
    && rows != []
    && (forall i :: 0 <= i < |rows| ==> ParseRow(rows[i], sms).Some?)
    && (forall i, j :: 0 <= i < |rows| && 0 <= j < |rows| ==>
      Agree(ParseRow(rows[i], sms).value, ParseRow(rows[j], sms).value))
  }

  function Key(p: Path): string {
    p.level1 + [NUL] + (p.level2 + [NUL] + p.level3)
  }

  predicate Clean(p: Path) {
    NUL !in p.level1 && NUL !in p.level2
  }

  lemma {:induction false} KeyIsInjective(p: Path, q: Path)
    requires Clean(p) && Clean(q) && Key(p) == Key(q)
    ensures p == q
  {
    SplitAtFirst(p.level1, NUL, p.level2 + [NUL] + p.level3);
    SplitAtFirst(q.level1, NUL, q.level2 + [NUL] + q.level3);
    SplitAtFirst(p.level2, NUL, p.level3);
    SplitAtFirst(q.level2, NUL, q.level3);
  }

  /** With a NUL byte in a category two leaves would share an accumulator. */
  lemma {:induction false} NulMergesLeaves()
    ensures
      var p, q := Path(['a', NUL, 'b'], "c", "d"), Path("a", ['b', NUL, 'c'], "d");
      p != q && Key(p) == Key(q)
  {
  }

  datatype Leaf = Leaf(path: Path, capacity: nat, stats: Stats, tags: set<nat>)

  function Paths(ps: seq<Parsed>): set<Path> {
    set i | 0 <= i < |ps| :: ps[i].path
  }

  function Tags(ps: seq<Parsed>, path: Path): set<nat> {
    set i | 0 <= i < |ps| && ps[i].path == path :: ps[i].tag
  }

  /** What the accumulators hold after some rows. */
  ghost predicate Collected(acc: map<string, Leaf>, ps: seq<Parsed>) {
    && (forall k :: k in acc ==> LeafFits(k, acc[k], ps))
    && (forall i :: 0 <= i < |ps| ==> Fed(acc, ps[i]))
  }

  predicate LeafFits(k: string, leaf: Leaf, ps: seq<Parsed>) {
    k == Key(leaf.path) && Clean(leaf.path) && leaf.path in Paths(ps) && leaf.tags == Tags(ps, leaf.path)
  }

  predicate Fed(acc: map<string, Leaf>, p: Parsed) {
    var k := Key(p.path);
    k in acc && acc[k].stats == p.stats && acc[k].capacity == p.capacity
  }

  function Updated(acc: map<string, Leaf>, p: Parsed): map<string, Leaf> {
    var key := Key(p.path);
    if key in acc then acc[key := acc[key].(tags := acc[key].tags + {p.tag})]
    else acc[key := Leaf(p.path, p.capacity, p.stats, {p.tag})]
  }

  lemma {:induction false} SetsAfter(ps: seq<Parsed>, p: Parsed, path: Path)
    ensures Paths(ps + [p]) == Paths(ps) + {p.path}
    ensures Tags(ps + [p], path) == Tags(ps, path) + if p.path == path then {p.tag} else {}
    ensures path !in Paths(ps) ==> Tags(ps, path) == {}
  {
    var all := ps + [p];
    assert all[|ps|] == p;
    assert forall i :: 0 <= i < |ps| ==> all[i] == ps[i];
  }

  lemma {:induction false} CollectOne(acc: map<string, Leaf>, ps: seq<Parsed>, p: Parsed)
    requires Collected(acc, ps) && Clean(p.path)
    requires Key(p.path) in acc ==> Fed(acc, p)
    ensures Collected(Updated(acc, p), ps + [p])
  {
    hide Key, Paths, Tags, Clean;
    var after := Updated(acc, p);
    forall k | k in after
      ensures LeafFits(k, after[k], ps + [p])
    {
      SetsAfter(ps, p, after[k].path);
      if k in acc && acc[k].path != p.path && k == Key(p.path) {
        KeyIsInjective(acc[k].path, p.path);
      }
      if Key(p.path) !in acc && p.path in Paths(ps) {
        UnknownPath(acc, ps, p.path);
      }
    }
    forall i | 0 <= i < |ps + [p]|
      ensures Fed(after, (ps + [p])[i])
    {
      if i < |ps| {
        assert Fed(acc, ps[i]);
      }
    }
  }

  lemma {:induction false} UnknownPath(acc: map<string, Leaf>, ps: seq<Parsed>, path: Path)
    requires Collected(acc, ps) && path in Paths(ps)
    ensures Key(path) in acc
  {
  }

  function ParseAll(rows: seq<StoredRow>, sms: bool): (ps: seq<Parsed>)
    requires forall i :: 0 <= i < |rows| ==> ParseRow(rows[i], sms).Some?
    ensures |ps| == |rows| && forall i :: 0 <= i < |rows| ==> ps[i] == ParseRow(rows[i], sms).value
  {
    seq(|rows|, i requires 0 <= i < |rows| => ParseRow(rows[i], sms).value)
  }

  /** One pass over the rows: a leaf per path, or nothing when the rows cannot be built from. */
  method Accumulate(rows: seq<StoredRow>, sms: bool) returns (r: Option<map<string, Leaf>>)
    ensures r.Some? <==> Buildable(rows, sms)
    ensures r.Some? ==> Collected(r.value, ParseAll(rows, sms))
  {
    hide Collected, ParseRow, Key, Updated, Agree;
    if rows == [] { return None; }
    var acc: map<string, Leaf> := map[];
    ghost var ps: seq<Parsed> := [];
    NothingCollected();
    for n := 0 to |rows|
      invariant forall i :: 0 <= i < n ==> ParseRow(rows[i], sms).Some?
      invariant ps == ParseAll(rows[..n], sms)
      invariant Collected(acc, ps)
      invariant forall i, j :: 0 <= i < n && 0 <= j < n ==> Agree(ps[i], ps[j])
    {
      var row := rows[n];
      var parsed := ParseRow(row, sms);
      if parsed.None? { return None; }
      var p := parsed.value;
      CollectedAgrees(acc, ps, p);
      if Conflict(acc, p) {
        ghost var i :| 0 <= i < n && !Agree(ps[i], p);
        assert ps[i] == ParseRow(rows[i], sms).value;
        return None;
      }
      CollectOne(acc, ps, p);
      acc := Updated(acc, p);
      ps := ps + [p];
      AgreeIsSymmetric(ps, p);
    }
    assert rows[..|rows|] == rows;
    return Some(acc);
  }

  /** A leaf exists already and the row's figures differ from it. */
  predicate Conflict(acc: map<string, Leaf>, p: Parsed) {
    var k := Key(p.path);
    k in acc && (acc[k].capacity != p.capacity || acc[k].stats != p.stats)
  }

  lemma {:induction false} NothingCollected()
    ensures Collected(map[], [])
  {
  }

  lemma {:induction false} CollectedAgrees(acc: map<string, Leaf>, ps: seq<Parsed>, p: Parsed)
    requires Collected(acc, ps) && Clean(p.path)
    requires forall i :: 0 <= i < |ps| ==> Clean(ps[i].path)
    ensures Conflict(acc, p) <==> exists i :: 0 <= i < |ps| && !Agree(ps[i], p)
    ensures !Conflict(acc, p) && Key(p.path) in acc ==> Fed(acc, p)
  {
    hide Clean;
    if Conflict(acc, p) {
      var leaf := acc[Key(p.path)];
      assert LeafFits(Key(p.path), leaf, ps);
      KeyIsInjective(leaf.path, p.path);
      var i :| 0 <= i < |ps| && ps[i].path == leaf.path;
      assert Fed(acc, ps[i]) && !Agree(ps[i], p);
    } else {
      forall i | 0 <= i < |ps|
        ensures Agree(ps[i], p)
      {
        assert Fed(acc, ps[i]);
      }
    }
  }

  lemma {:induction false} AgreeIsSymmetric(ps: seq<Parsed>, p: Parsed)
    requires ps != [] && ps[|ps| - 1] == p
    requires forall i :: 0 <= i < |ps| - 1 ==> Agree(ps[i], p)
    requires forall i, j :: 0 <= i < |ps| - 1 && 0 <= j < |ps| - 1 ==> Agree(ps[i], ps[j])
    ensures forall i, j :: 0 <= i < |ps| && 0 <= j < |ps| ==> Agree(ps[i], ps[j])
  {
  }

  // ---------------------------------------------------------------- from leaves to the nested specification

  lemma {:induction false} HasMaximum(xs: set<nat>) returns (m: nat)
    requires xs != {}
    ensures m in xs && forall x :: x in xs ==> x <= m
    decreases |xs|
  {
    m :| m in xs;
    var rest := xs - {m};
    assert xs == rest + {m};
    if rest != {} {
      var n := HasMaximum(rest);
      if n > m {
        m := n;
      }
    }
  }

  function Strings(xs: seq<nat>): (strings: seq<string>)
    ensures |strings| == |xs|
  {
    seq(|xs|, i requires 0 <= i < |xs| => Decimal(xs[i]))
  }

  /** Tags as ascending decimal strings. */
  ghost predicate Lists(strings: seq<string>, tags: set<nat>) {
    exists xs: seq<nat> :: Ascending(xs) && Elements(xs) == tags && strings == Strings(xs)
  }

  lemma {:induction false} ListsIsUnique(a: seq<string>, b: seq<string>, tags: set<nat>)
    requires Lists(a, tags) && Lists(b, tags)
    ensures a == b
  {
    var xs: seq<nat> :| Ascending(xs) && Elements(xs) == tags && a == Strings(xs);
    var ys: seq<nat> :| Ascending(ys) && Elements(ys) == tags && b == Strings(ys);
    AscendingIsUnique(xs, ys);
  }

  lemma {:induction false} Prepended(top: nat, sorted: seq<nat>)
    requires Ascending(sorted) && forall y :: y in sorted ==> top < y
    ensures Ascending([top] + sorted) && Elements([top] + sorted) == {top} + Elements(sorted)
  {
    assert forall j :: 0 <= j < |sorted| ==> sorted[j] in sorted;
  }

  method SortedTags(tags: set<nat>) returns (strings: seq<string>)
    ensures Lists(strings, tags)
  {
    var sorted: seq<nat> := [];
    var remaining := tags;
    assert Ascending(sorted) && Elements(sorted) == {};
    hide Ascending, Elements, Strings;
    while remaining != {}
      invariant Ascending(sorted) && Elements(sorted) == tags - remaining && remaining <= tags
      invariant forall x, y :: x in remaining && y in sorted ==> x < y
      decreases remaining
    {
      ghost var m := HasMaximum(remaining);
      var top :| top in remaining && forall x :: x in remaining ==> x <= top;
      Prepended(top, sorted);
      sorted := [top] + sorted;
      remaining := remaining - {top};
    }
    assert Elements(sorted) == tags;
    return Strings(sorted);
  }

  function Lookup(spec: Spec, p: Path): (item: Option<SpecItem>) {
    if p.level1 in spec && p.level2 in spec[p.level1] && p.level3 in spec[p.level1][p.level2]
    then Some(spec[p.level1][p.level2][p.level3]) else None
  }

  predicate NoEmptyLevels(spec: Spec) {
    forall l1 :: l1 in spec ==> spec[l1] != map[] && forall l2 :: l2 in spec[l1] ==> spec[l1][l2] != map[]
  }

  function Insert(spec: Spec, p: Path, item: SpecItem): (r: Spec)
    ensures forall q :: Lookup(r, q) == if q == p then Some(item) else Lookup(spec, q)
    ensures NoEmptyLevels(spec) ==> NoEmptyLevels(r)
  {
    var level2 := if p.level1 in spec then spec[p.level1] else map[];
    var items := if p.level2 in level2 then level2[p.level2] else map[];
    assert p.level3 in items[p.level3 := item] && p.level2 in level2[p.level2 := items[p.level3 := item]];
    spec[p.level1 := level2[p.level2 := items[p.level3 := item]]]
  }

  /** The specification of some rows: an item per path, with its figures and its sorted tags. */
  ghost predicate IsSpecOf(spec: Spec, ps: seq<Parsed>) {
    && NoEmptyLevels(spec)
    && (forall p :: Lookup(spec, p).Some? ==> p in Paths(ps))
    && (forall i :: 0 <= i < |ps| ==> Shows(Lookup(spec, ps[i].path), ps[i], Tags(ps, ps[i].path)))
  }

  ghost predicate Shows(item: Option<SpecItem>, p: Parsed, tags: set<nat>) {
    item.Some? && item.value.available == p.capacity && item.value.stats == p.stats && Lists(item.value.tags, tags)
  }

  // ---------------------------------------------------------------- in terms of the rows' own columns

  /** A row with a tag, three categories, and statistics that give a capacity. */
  predicate Accepted(row: StoredRow, sms: bool) {
    && row.tag != 0 && Trim(row.level1) != "" && Trim(row.level2) != "" && Trim(row.level3) != ""
    && row.statsFound && !Negative(row.stats) && Reach(row.stats, sms) <= MAX_INT
  }

  predicate SameCategories(row: StoredRow, level1: string, level2: string, level3: string) {
    Trim(row.level1) == level1 && Trim(row.level2) == level2 && Trim(row.level3) == level3
  }

  predicate SameLeaf(row: StoredRow, other: StoredRow) {
    SameCategories(row, Trim(other.level1), Trim(other.level2), Trim(other.level3))
  }

  /** Every row is accepted, and rows of one leaf carry the same statistics. */
  predicate AllAccepted(rows: seq<StoredRow>, sms: bool) {
    && rows != []
    && (forall i :: 0 <= i < |rows| ==> Accepted(rows[i], sms))
    && (forall i, j :: 0 <= i < |rows| && 0 <= j < |rows| && SameLeaf(rows[i], rows[j]) ==>
          rows[i].stats == rows[j].stats)
  }

  /** The row's first, second and third category lead to an item with its figures and its tag. */
  predicate Leads(spec: Spec, row: StoredRow, sms: bool) {
    && Trim(row.level1) in spec && Trim(row.level2) in spec[Trim(row.level1)]
    && Trim(row.level3) in spec[Trim(row.level1)][Trim(row.level2)]
    && var item := spec[Trim(row.level1)][Trim(row.level2)][Trim(row.level3)];
    && item.stats == row.stats && !Negative(row.stats) && item.available == Reach(row.stats, sms)
    && Decimal(row.tag) in item.tags
  }

  /** Some row of these categories has this tag. */
  predicate TagOfRow(rows: seq<StoredRow>, level1: string, level2: string, level3: string, tag: string) {
    exists i :: 0 <= i < |rows| && SameCategories(rows[i], level1, level2, level3) && tag == Decimal(rows[i].tag)
  }

  /** Every item has tags, and each is that of a row with the item's categories. */
  predicate ComesFrom(spec: Spec, rows: seq<StoredRow>) {
    forall l1, l2, l3 :: l1 in spec && l2 in spec[l1] && l3 in spec[l1][l2] ==>
      && spec[l1][l2][l3].tags != []
      && forall k :: 0 <= k < |spec[l1][l2][l3].tags| ==> TagOfRow(rows, l1, l2, l3, spec[l1][l2][l3].tags[k])
  }

  lemma {:induction false} ParsedByColumns(row: StoredRow, sms: bool)
    ensures ParseRow(row, sms).Some? <==> Accepted(row, sms)
    ensures ParseRow(row, sms).Some? ==>
      var p := ParseRow(row, sms).value;
      && p.path == Path(Trim(row.level1), Trim(row.level2), Trim(row.level3))
      && p.tag == row.tag && p.stats == row.stats && Capacity(row.stats, sms) == Some(p.capacity)
  {
  }

  /** Rows can be built from iff all are accepted and agree. */
  lemma {:induction false} BuildableByColumns(rows: seq<StoredRow>, sms: bool)
    ensures Buildable(rows, sms) <==> AllAccepted(rows, sms)
  {
    forall i | 0 <= i < |rows|
      ensures ParseRow(rows[i], sms).Some? <==> Accepted(rows[i], sms)
    {
      ParsedByColumns(rows[i], sms);
    }
    hide ParseRow, Accepted, Trim, Capacity;
    if forall i :: 0 <= i < |rows| ==> Accepted(rows[i], sms) {
      forall i, j | 0 <= i < |rows| && 0 <= j < |rows|
        ensures Agree(ParseRow(rows[i], sms).value, ParseRow(rows[j], sms).value) <==>
          (SameLeaf(rows[i], rows[j]) ==> rows[i].stats == rows[j].stats)
      {
        ParsedByColumns(rows[i], sms);
        ParsedByColumns(rows[j], sms);
      }
    }
  }

  lemma {:induction false} ListedTag(strings: seq<string>, tags: set<nat>)
    requires Lists(strings, tags)
    ensures forall t :: t in tags ==> Decimal(t) in strings
    ensures forall k :: 0 <= k < |strings| ==> exists t :: t in tags && strings[k] == Decimal(t)
    ensures tags != {} ==> strings != []
  {
    var xs: seq<nat> :| Ascending(xs) && Elements(xs) == tags && strings == Strings(xs);
    forall t | t in tags
      ensures Decimal(t) in strings
    {
      var k :| 0 <= k < |xs| && xs[k] == t;
      assert strings[k] == Decimal(t);
    }
    forall k | 0 <= k < |strings|
      ensures exists t :: t in tags && strings[k] == Decimal(t)
    {
      assert xs[k] in tags && strings[k] == Decimal(xs[k]);
    }
    if tags != {} {
      var t :| t in tags;
      assert Decimal(t) in strings;
    }
  }

  lemma {:induction false} RowLeads(rows: seq<StoredRow>, sms: bool, spec: Spec, i: nat)
    requires Buildable(rows, sms) && IsSpecOf(spec, ParseAll(rows, sms)) && i < |rows|
    ensures Leads(spec, rows[i], sms)
  {
    hide ParseRow, Agree, Lists, NoEmptyLevels, Trim, Capacity, Decimal;
    var ps := ParseAll(rows, sms);
    ParsedByColumns(rows[i], sms);
    var p := ps[i];
    assert Shows(Lookup(spec, p.path), p, Tags(ps, p.path));
    assert p.tag in Tags(ps, p.path);
    ListedTag(Lookup(spec, p.path).value.tags, Tags(ps, p.path));
  }

  lemma {:induction false} ItemComesFrom(rows: seq<StoredRow>, sms: bool, spec: Spec, path: Path)
    requires Buildable(rows, sms) && IsSpecOf(spec, ParseAll(rows, sms)) && Lookup(spec, path).Some?
    ensures
      var tags := Lookup(spec, path).value.tags;
      && tags != []
      && forall k :: 0 <= k < |tags| ==> TagOfRow(rows, path.level1, path.level2, path.level3, tags[k])
  {
    hide ParseRow, Agree, Lists, NoEmptyLevels, Lookup, Trim, Capacity, Decimal;
    var ps := ParseAll(rows, sms);
    assert path in Paths(ps);
    var i: nat :| i < |ps| && ps[i].path == path;
    assert Shows(Lookup(spec, path), ps[i], Tags(ps, path));
    assert ps[i].tag in Tags(ps, path);
    var tags := Lookup(spec, path).value.tags;
    ListedTag(tags, Tags(ps, path));
    forall k | 0 <= k < |tags|
      ensures TagOfRow(rows, path.level1, path.level2, path.level3, tags[k])
    {
      var t :| t in Tags(ps, path) && tags[k] == Decimal(t);
      var j: nat :| j < |ps| && ps[j].path == path && ps[j].tag == t;
      ParsedByColumns(rows[j], sms);
      assert SameCategories(rows[j], path.level1, path.level2, path.level3) && tags[k] == Decimal(rows[j].tag);
    }
  }

  /** A specification shows every row where its columns say, and shows nothing else. */
  lemma {:induction false} SpecByColumns(rows: seq<StoredRow>, sms: bool, spec: Spec)
    requires Buildable(rows, sms) && IsSpecOf(spec, ParseAll(rows, sms))
    ensures forall i :: 0 <= i < |rows| ==> Leads(spec, rows[i], sms)
    ensures ComesFrom(spec, rows)
  {
    hide Buildable, IsSpecOf, Leads, TagOfRow;
    forall i | 0 <= i < |rows|
      ensures Leads(spec, rows[i], sms)
    {
      RowLeads(rows, sms, spec, i);
    }
    forall l1, l2, l3 | l1 in spec && l2 in spec[l1] && l3 in spec[l1][l2]
      ensures
        && spec[l1][l2][l3].tags != []
        && forall k :: 0 <= k < |spec[l1][l2][l3].tags| ==> TagOfRow(rows, l1, l2, l3, spec[l1][l2][l3].tags[k])
    {
      assert Lookup(spec, Path(l1, l2, l3)) == Some(spec[l1][l2][l3]);
      ItemComesFrom(rows, sms, spec, Path(l1, l2, l3));
    }
  }

  /**
   The build succeeds iff every row is accepted and rows of one leaf agree; then every row is found where
   its own columns say, and every item and every tag comes from a row.
   */
  method BuildSpec(rows: seq<StoredRow>, sms: bool) returns (r: Option<Spec>)
    ensures r.Some? <==> AllAccepted(rows, sms)
    ensures r.Some? ==> (forall i :: 0 <= i < |rows| ==> Leads(r.value, rows[i], sms)) && ComesFrom(r.value, rows)
    ensures r.Some? <==> Buildable(rows, sms)
    ensures r.Some? ==> IsSpecOf(r.value, ParseAll(rows, sms))
  {
    BuildableByColumns(rows, sms);
    hide Collected, ParseRow, Agree, Lists, NoEmptyLevels, Lookup, IsSpecOf, Filled, AllAccepted, Leads, ComesFrom;
    var accumulated := Accumulate(rows, sms);
    if accumulated.None? { return None; }
    var spec := Nest(accumulated.value, ParseAll(rows, sms));
    SpecByColumns(rows, sms, spec);
    return Some(spec);
  }

  /** The accumulated leaves, one by one in whatever order, into the nested specification. */
  method Nest(acc: map<string, Leaf>, ghost ps: seq<Parsed>) returns (spec: Spec)
    requires Collected(acc, ps) && forall i :: 0 <= i < |ps| ==> Clean(ps[i].path)
    ensures IsSpecOf(spec, ps)
  {
    KeysAreTheirPaths(acc, ps);
    EmptySpec(acc);
    hide *;
    spec := map[];
    var remaining := acc.Keys;
    ghost var done: set<string> := {};
    while remaining != {}
      invariant remaining <= acc.Keys && done == acc.Keys - remaining && NoEmptyLevels(spec)
      invariant Filled(spec, acc, done)
      decreases remaining
    {
      var key :| key in remaining;
      var leaf := acc[key];
      var tags := SortedTags(leaf.tags);
      var item := SpecItem(tags, leaf.capacity, leaf.stats);
      LeafIsShown(leaf, item);
      FillOne(spec, acc, done, key, item);
      spec := Insert(spec, leaf.path, item);
      remaining := remaining - {key};
      done := done + {key};
    }
    assert done == acc.Keys;
    FilledIsSpec(spec, acc, ps, done);
  }

  lemma {:induction false} LeafIsShown(leaf: Leaf, item: SpecItem)
    requires item.available == leaf.capacity && item.stats == leaf.stats && Lists(item.tags, leaf.tags)
    ensures ShowsLeaf(Some(item), leaf)
  {
  }

  ghost predicate Filled(spec: Spec, acc: map<string, Leaf>, done: set<string>) {
    && (forall p :: Lookup(spec, p).Some? ==> exists k :: k in done && k in acc && acc[k].path == p)
    && (forall k :: k in done && k in acc ==> ShowsLeaf(Lookup(spec, acc[k].path), acc[k]))
  }

  ghost predicate ShowsLeaf(item: Option<SpecItem>, leaf: Leaf) {
    item.Some? && item.value.available == leaf.capacity && item.value.stats == leaf.stats &&
      Lists(item.value.tags, leaf.tags)
  }

  lemma {:induction false} EmptySpec(acc: map<string, Leaf>)
    ensures NoEmptyLevels(map[]) && Filled(map[], acc, {})
  {
  }

  lemma {:induction false} KeysAreTheirPaths(acc: map<string, Leaf>, ps: seq<Parsed>)
    requires Collected(acc, ps)
    ensures forall k :: k in acc ==> k == Key(acc[k].path)
  {
  }

  lemma {:induction false} FillOne(spec: Spec, acc: map<string, Leaf>, done: set<string>, key: string, item: SpecItem)
    requires Filled(spec, acc, done) && key in acc && key !in done && forall k :: k in acc ==> k == Key(acc[k].path)
    requires ShowsLeaf(Some(item), acc[key])
    ensures Filled(Insert(spec, acc[key].path, item), acc, done + {key})
  {
  }

  lemma {:induction false} FilledIsSpec(spec: Spec, acc: map<string, Leaf>, ps: seq<Parsed>, done: set<string>)
    requires Filled(spec, acc, done) && Collected(acc, ps) && NoEmptyLevels(spec) && done == acc.Keys
    requires forall i :: 0 <= i < |ps| ==> Clean(ps[i].path)
    ensures IsSpecOf(spec, ps)
  {
    hide Lookup, NoEmptyLevels, Lists, Paths, Tags, Clean;
    forall p | Lookup(spec, p).Some?
      ensures p in Paths(ps)
    {
      var k :| k in done && k in acc && acc[k].path == p;
      assert LeafFits(k, acc[k], ps);
    }
    forall i | 0 <= i < |ps|
      ensures Shows(Lookup(spec, ps[i].path), ps[i], Tags(ps, ps[i].path))
    {
      var k := Key(ps[i].path);
      assert Fed(acc, ps[i]);
      assert LeafFits(k, acc[k], ps);
      KeyIsInjective(acc[k].path, ps[i].path);
    }
  }

  // ---------------------------------------------------------------- row order does not matter

  lemma {:induction false} SpecsEqual(a: Spec, b: Spec)
    requires NoEmptyLevels(a) && NoEmptyLevels(b) && forall p :: Lookup(a, p) == Lookup(b, p)
    ensures a == b
  {
    forall l1 | l1 in a
      ensures l1 in b && a[l1] == b[l1]
    {
      Level1Kept(a, b, l1);
    }
    forall l1 | l1 in b
      ensures l1 in a
    {
      Level1Kept(b, a, l1);
    }
  }

  lemma {:induction false} Level1Kept(a: Spec, b: Spec, l1: string)
    requires NoEmptyLevels(a) && NoEmptyLevels(b) && (forall p :: Lookup(a, p) == Lookup(b, p)) && l1 in a
    ensures l1 in b && a[l1] == b[l1]
  {
    var some :| some in a[l1];
    Level2Kept(a, b, l1, some);
    forall l2 | l2 in a[l1]
      ensures l2 in b[l1] && a[l1][l2] == b[l1][l2]
    {
      Level2Kept(a, b, l1, l2);
    }
    forall l2 | l2 in b[l1]
      ensures l2 in a[l1]
    {
      Level2Kept(b, a, l1, l2);
    }
  }

  lemma {:induction false} Level2Kept(a: Spec, b: Spec, l1: string, l2: string)
    requires NoEmptyLevels(a) && (forall p :: Lookup(a, p) == Lookup(b, p)) && l1 in a && l2 in a[l1]
    ensures l1 in b && l2 in b[l1] && a[l1][l2] == b[l1][l2]
  {
    forall l3 | l3 in a[l1][l2]
      ensures l1 in b && l2 in b[l1] && l3 in b[l1][l2] && a[l1][l2][l3] == b[l1][l2][l3]
    {
      assert Lookup(a, Path(l1, l2, l3)) == Lookup(b, Path(l1, l2, l3));
    }
    assert a[l1][l2] != map[];
    var some :| some in a[l1][l2];
    forall l3 | l3 in b[l1][l2]
      ensures l3 in a[l1][l2]
    {
      assert Lookup(a, Path(l1, l2, l3)) == Lookup(b, Path(l1, l2, l3));
    }
  }

  /** The same rows in any order, or repeated, are accepted or refused alike. */
  lemma {:induction false} BuildableIgnoresOrder(rows: seq<StoredRow>, other: seq<StoredRow>, sms: bool)
    requires forall row :: row in rows <==> row in other
    ensures Buildable(rows, sms) <==> Buildable(other, sms)
  {
    hide ParseRow, Agree;
    if Buildable(rows, sms) {
      BuildableTransfers(rows, other, sms);
    }
    if Buildable(other, sms) {
      BuildableTransfers(other, rows, sms);
    }
  }

  lemma {:induction false} BuildableTransfers(rows: seq<StoredRow>, other: seq<StoredRow>, sms: bool)
    requires (forall row :: row in rows <==> row in other) && Buildable(rows, sms)
    ensures Buildable(other, sms)
  {
    hide ParseRow, Agree;
    assert rows[0] in other;
    forall i | 0 <= i < |other|
      ensures ParseRow(other[i], sms).Some?
    {
      assert other[i] in rows;
    }
    forall i, j | 0 <= i < |other| && 0 <= j < |other|
      ensures Agree(ParseRow(other[i], sms).value, ParseRow(other[j], sms).value)
    {
      assert other[i] in rows && other[j] in rows;
      var k :| 0 <= k < |rows| && rows[k] == other[i];
      var l :| 0 <= l < |rows| && rows[l] == other[j];
    }
  }

  /** And they give the same specification. */
  lemma {:induction false} SpecIgnoresOrder(rows: seq<StoredRow>, other: seq<StoredRow>, sms: bool, a: Spec, b: Spec)
    requires forall row :: row in rows <==> row in other
    requires Buildable(rows, sms) && Buildable(other, sms)
    requires IsSpecOf(a, ParseAll(rows, sms)) && IsSpecOf(b, ParseAll(other, sms))
    ensures a == b
  {
    hide ParseRow, Agree, Lists, NoEmptyLevels, Lookup, Paths, Tags;
    var ps, qs := ParseAll(rows, sms), ParseAll(other, sms);
    SameSets(rows, other, sms);
    forall p
      ensures Lookup(a, p) == Lookup(b, p)
    {
      if p in Paths(ps) {
        ShownAlike(rows, other, sms, a, b, p);
      }
    }
    SpecsEqual(a, b);
  }

  lemma {:induction false} ParsedAlike(rows: seq<StoredRow>, other: seq<StoredRow>, sms: bool, i: nat) returns (j: nat)
    requires (forall row :: row in rows <==> row in other) && Buildable(rows, sms) && Buildable(other, sms)
    requires i < |rows|
    ensures j < |other| && ParseAll(other, sms)[j] == ParseAll(rows, sms)[i]
  {
    hide ParseRow, Agree;
    assert rows[i] in other;
    j :| 0 <= j < |other| && other[j] == rows[i];
  }

  lemma {:induction false} SameSets(rows: seq<StoredRow>, other: seq<StoredRow>, sms: bool)
    requires (forall row :: row in rows <==> row in other) && Buildable(rows, sms) && Buildable(other, sms)
    ensures Paths(ParseAll(rows, sms)) == Paths(ParseAll(other, sms))
    ensures forall p :: Tags(ParseAll(rows, sms), p) == Tags(ParseAll(other, sms), p)
  {
    hide ParseRow, Agree, Paths, Tags;
    var ps, qs := ParseAll(rows, sms), ParseAll(other, sms);
    forall i: nat | i < |rows|
      ensures ps[i] in qs
    {
      var j := ParsedAlike(rows, other, sms, i);
      assert qs[j] == ps[i];
    }
    forall i: nat | i < |other|
      ensures qs[i] in ps
    {
      var j := ParsedAlike(other, rows, sms, i);
      assert ps[j] == qs[i];
    }
    SameElements(ps, qs);
  }

  lemma {:induction false} SameElements(ps: seq<Parsed>, qs: seq<Parsed>)
    requires (forall i :: 0 <= i < |ps| ==> ps[i] in qs) && (forall i :: 0 <= i < |qs| ==> qs[i] in ps)
    ensures Paths(ps) == Paths(qs) && forall p :: Tags(ps, p) == Tags(qs, p)
  {
  }

  lemma {:induction false} ShownAlike(rows: seq<StoredRow>, other: seq<StoredRow>, sms: bool, a: Spec, b: Spec, p: Path)
    requires (forall row :: row in rows <==> row in other) && Buildable(rows, sms) && Buildable(other, sms)
    requires IsSpecOf(a, ParseAll(rows, sms)) && IsSpecOf(b, ParseAll(other, sms)) && p in Paths(ParseAll(rows, sms))
    requires Tags(ParseAll(rows, sms), p) == Tags(ParseAll(other, sms), p)
    ensures Lookup(a, p) == Lookup(b, p)
  {
    hide ParseRow, Agree, Lists, NoEmptyLevels, Lookup, Tags;
    var ps, qs := ParseAll(rows, sms), ParseAll(other, sms);
    var i: nat :| i < |ps| && ps[i].path == p;
    var j := ParsedAlike(rows, other, sms, i);
    assert Shows(Lookup(a, p), ps[i], Tags(ps, p));
    assert Shows(Lookup(b, p), qs[j], Tags(qs, p));
    ListsIsUnique(Lookup(a, p).value.tags, Lookup(b, p).value.tags, Tags(ps, p));
  }

  // ---------------------------------------------------------------- validation

  predicate Numeric(s: string) {
    s != "" && forall i :: 0 <= i < |s| ==> '0' <= s[i] <= '9'
  }

  /** A decimal that fits 64 bits. */
  function ParseUint(s: string): Option<nat> {
    if Numeric(s) && Number(s) < TWO_64 then Some(Number(s)) else None
  }

  function Zeros(k: nat): (s: string)
    ensures |s| == k && forall i :: 0 <= i < k ==> s[i] == '0'
  {
    seq(k, i => '0')
  }

  /** The texts the parser reads are exactly the numerals below 2^64, with any leading zeros. */
  lemma {:induction false} ParseUintIsExact(s: string, n: nat)
    ensures ParseUint(s) == Some(n) <==> n < TWO_64 && exists k :: s == Zeros(k) + Decimal(n)
  {
    if ParseUint(s) == Some(n) {
      var k := NumericIsANumeral(s);
      assert s == Zeros(k) + Decimal(n);
    }
    if k: nat :| s == Zeros(k) + Decimal(n) {
      ZerosDoNotCount(k, n);
    }
  }

  lemma {:induction false} NumericIsANumeral(s: string) returns (k: nat)
    requires Numeric(s)
    ensures s == Zeros(k) + Decimal(Number(s))
    decreases |s|
  {
    var front, last := s[..|s| - 1], s[|s| - 1];
    var d := ValueOfLast(s);
    LastDigit(Number(front), d);
    assert front == "" ==> Number(front) == 0;
    assert front != "" ==> Numeric(front);
    assert Decimal(0) == "0";
    hide Number, Numeric, Zeros, Decimal, Digit;
    if front == "" {
      k := 0;
      NoZeros(s);
    } else {
      k := NumericIsANumeral(front);
      if Number(front) == 0 {
        k := k + 1;
        OneMoreZero(k);
      } else {
        Regroup(Zeros(k), Decimal(Number(front)), [Digit(d)]);
      }
    }
  }

  lemma {:induction false} Regroup(a: string, b: string, c: string)
    ensures (a + b) + c == a + (b + c)
  {
  }

  lemma {:induction false} ValueOfLast(s: string) returns (d: nat)
    requires Numeric(s)
    ensures d < 10 && s == s[..|s| - 1] + [Digit(d)] && Number(s) == 10 * Number(s[..|s| - 1]) + d
  {
    d := (s[|s| - 1] - '0') as nat;
  }

  lemma {:induction false} NoZeros(s: string)
    ensures Zeros(0) + s == s
  {
  }

  lemma {:induction false} OneMoreZero(k: nat)
    requires k > 0
    ensures Zeros(k) == Zeros(k - 1) + "0"
  {
  }

  lemma {:induction false} LastDigit(n: nat, d: nat)
    requires d < 10
    ensures Decimal(10 * n + d) == if n == 0 then [Digit(d)] else Decimal(n) + [Digit(d)]
  {
  }

  lemma {:induction false} ZerosDoNotCount(k: nat, n: nat)
    ensures Number(Zeros(k) + Decimal(n)) == n
    decreases n
  {
    var s := Zeros(k) + Decimal(n);
    if n < 10 {
      assert s[..|s| - 1] == Zeros(k);
      ZerosAreZero(k);
    } else {
      assert s[..|s| - 1] == Zeros(k) + Decimal(n / 10);
      ZerosDoNotCount(k, n / 10);
    }
  }

  lemma {:induction false} ZerosAreZero(k: nat)
    ensures Number(Zeros(k)) == 0
  {
    if k > 0 {
      assert Zeros(k)[..k - 1] == Zeros(k - 1);
      ZerosAreZero(k - 1);
    }
  }

  function TagId(tag: string): Option<nat> {
    ParseUint(Trim(tag))
  }

  predicate ValidTags(tags: seq<string>) {
    && tags != []
    && (forall i :: 0 <= i < |tags| ==> TagId(tags[i]).Some? && TagId(tags[i]).value != 0)
    && (forall i, j :: 0 <= i < j < |tags| ==> TagId(tags[i]) != TagId(tags[j]))
  }

  predicate ValidItem(level3: string, item: SpecItem, sms: bool) {
    Trim(level3) != "" && ValidTags(item.tags) && Capacity(item.stats, sms) == Some(item.available)
  }

  predicate ValidItems(level2: string, items: map<string, SpecItem>, sms: bool) {
    Trim(level2) != "" && items != map[] && forall l3 :: l3 in items ==> ValidItem(l3, items[l3], sms)
  }

  predicate ValidLevel(level1: string, nodes: map<string, map<string, SpecItem>>, sms: bool) {
    Trim(level1) != "" && nodes != map[] && forall l2 :: l2 in nodes ==> ValidItems(l2, nodes[l2], sms)
  }

  predicate ValidSpec(spec: Spec, sms: bool) {
    spec != map[] && forall l1 :: l1 in spec ==> ValidLevel(l1, spec[l1], sms)
  }

  method ValidateTags(tags: seq<string>) returns (ok: bool)
    ensures ok <==> ValidTags(tags)
  {
    hide TagId;
    if tags == [] { return false; }
    var seen: set<nat> := {};
    for i := 0 to |tags|
      invariant forall k ::
        0 <= k < i ==> TagId(tags[k]).Some? && TagId(tags[k]).value != 0 && TagId(tags[k]).value in seen
      invariant forall t :: t in seen ==> exists k :: 0 <= k < i && TagId(tags[k]) == Some(t)
      invariant forall k, l :: 0 <= k < l < i ==> TagId(tags[k]) != TagId(tags[l])
    {
      var id := TagId(tags[i]);
      if id.None? || id.value == 0 { return false; }
      if id.value in seen { return false; }
      seen := seen + {id.value};
    }
    return true;
  }

  method ValidateItems(level2: string, items: map<string, SpecItem>, sms: bool) returns (ok: bool)
    ensures ok <==> ValidItems(level2, items, sms)
  {
    hide Capacity, ValidTags;
    if Trim(level2) == "" || items == map[] { return false; }
    var remaining := items.Keys;
    while remaining != {}
      invariant remaining <= items.Keys
      invariant forall l3 :: l3 in items && l3 !in remaining ==> ValidItem(l3, items[l3], sms)
      decreases remaining
    {
      var l3 :| l3 in remaining;
      var item := items[l3];
      var tagsOk := ValidateTags(item.tags);
      if Trim(l3) == "" || Capacity(item.stats, sms) != Some(item.available) || !tagsOk {
        assert !ValidItem(l3, items[l3], sms);
        return false;
      }
      remaining := remaining - {l3};
    }
    return true;
  }

  method ValidateLevel(level1: string, nodes: map<string, map<string, SpecItem>>, sms: bool) returns (ok: bool)
    ensures ok <==> ValidLevel(level1, nodes, sms)
  {
    hide ValidItems;
    if Trim(level1) == "" || nodes == map[] { return false; }
    var remaining := nodes.Keys;
    while remaining != {}
      invariant remaining <= nodes.Keys
      invariant forall l2 :: l2 in nodes && l2 !in remaining ==> ValidItems(l2, nodes[l2], sms)
      decreases remaining
    {
      var l2 :| l2 in remaining;
      var nodeOk := ValidateItems(l2, nodes[l2], sms);
      if !nodeOk { return false; }
      remaining := remaining - {l2};
    }
    return true;
  }

  method ValidateSpec(spec: Spec, sms: bool) returns (ok: bool)
    ensures ok <==> ValidSpec(spec, sms)
  {
    hide ValidLevel;
    if spec == map[] { return false; }
    var remaining := spec.Keys;
    while remaining != {}
      invariant remaining <= spec.Keys
      invariant forall l1 :: l1 in spec && l1 !in remaining ==> ValidLevel(l1, spec[l1], sms)
      decreases remaining
    {
      var l1 :| l1 in remaining;
      var levelOk := ValidateLevel(l1, spec[l1], sms);
      if !levelOk { return false; }
      remaining := remaining - {l1};
    }
    return true;
  }

  lemma {:induction false} DecimalIsItsId(n: nat)
    requires n < TWO_64
    ensures TagId(Decimal(n)) == Some(n)
  {
    DecimalRoundTrip(n);
    var s := Decimal(n);
    assert !IsSpace(s[0]) && !IsSpace(s[|s| - 1]);
  }

  lemma {:induction false} ListedTagsAreValid(strings: seq<string>, tags: set<nat>)
    requires Lists(strings, tags) && tags != {} && forall t :: t in tags ==> 0 < t < TWO_64
    ensures ValidTags(strings)
  {
    hide TagId;
    var xs: seq<nat> :| Ascending(xs) && Elements(xs) == tags && strings == Strings(xs);
    NoElements(xs);
    forall i | 0 <= i < |strings|
      ensures TagId(strings[i]) == Some(xs[i]) && xs[i] != 0
    {
      assert xs[i] in Elements(xs);
      DecimalIsItsId(xs[i]);
    }
  }

  lemma {:induction false} ParsedRowIsSound(row: StoredRow, sms: bool)
    requires ParseRow(row, sms).Some?
    ensures
      var p := ParseRow(row, sms).value;
      && Trim(p.path.level1) != "" && Trim(p.path.level2) != "" && Trim(p.path.level3) != ""
      && 0 < p.tag < TWO_64 && Capacity(p.stats, sms) == Some(p.capacity)
  {
  }

  lemma {:induction false} TagsAreFed(rows: seq<StoredRow>, sms: bool, i: nat)
    requires Buildable(rows, sms) && i < |rows|
    ensures
      var ps := ParseAll(rows, sms);
      var tags := Tags(ps, ps[i].path);
      tags != {} && forall t :: t in tags ==> 0 < t < TWO_64
  {
    hide ParseRow, Agree;
    var ps := ParseAll(rows, sms);
    assert ps[i].tag in Tags(ps, ps[i].path);
    forall t | t in Tags(ps, ps[i].path)
      ensures 0 < t < TWO_64
    {
      var j :| 0 <= j < |ps| && ps[j].path == ps[i].path && ps[j].tag == t;
      ParsedRowIsSound(rows[j], sms);
    }
  }

  lemma {:induction false} ShownItemIsValid(rows: seq<StoredRow>, sms: bool, spec: Spec, p: Path)
    requires Buildable(rows, sms) && IsSpecOf(spec, ParseAll(rows, sms)) && Lookup(spec, p).Some?
    ensures ValidItem(p.level3, Lookup(spec, p).value, sms) && Trim(p.level1) != "" && Trim(p.level2) != ""
  {
    hide ParseRow, Agree, Lookup, NoEmptyLevels, Tags, Lists, ValidTags, Capacity;
    var ps := ParseAll(rows, sms);
    assert p in Paths(ps);
    var i: nat :| i < |ps| && ps[i].path == p;
    assert Shows(Lookup(spec, p), ps[i], Tags(ps, p));
    ParsedRowIsSound(rows[i], sms);
    TagsAreFed(rows, sms, i);
    ListedTagsAreValid(Lookup(spec, p).value.tags, Tags(ps, p));
  }

  /** Whatever the rows, a specification that was built passes the validator that guards the cache. */
  lemma {:induction false} BuiltSpecIsValid(rows: seq<StoredRow>, sms: bool, spec: Spec)
    requires Buildable(rows, sms) && IsSpecOf(spec, ParseAll(rows, sms))
    ensures ValidSpec(spec, sms)
  {
    assert spec != map[] by { SpecIsNotEmpty(rows, sms, spec); }
    hide Buildable, ValidItem;
    assert NoEmptyLevels(spec);
    forall l1 | l1 in spec
      ensures ValidLevel(l1, spec[l1], sms)
    {
      forall l2, l3 | l2 in spec[l1] && l3 in spec[l1][l2]
        ensures ValidItem(l3, spec[l1][l2][l3], sms) && Trim(l1) != "" && Trim(l2) != ""
      {
        ShownItemIsValid(rows, sms, spec, Path(l1, l2, l3));
      }
      LevelIsValid(spec, l1, sms);
    }
  }

  lemma {:induction false} SpecIsNotEmpty(rows: seq<StoredRow>, sms: bool, spec: Spec)
    requires Buildable(rows, sms) && IsSpecOf(spec, ParseAll(rows, sms))
    ensures spec != map[]
  {
    hide ParseRow, Agree, Lists;
    var ps := ParseAll(rows, sms);
    assert Shows(Lookup(spec, ps[0].path), ps[0], Tags(ps, ps[0].path));
  }

  lemma {:induction false} LevelIsValid(spec: Spec, l1: string, sms: bool)
    requires NoEmptyLevels(spec) && l1 in spec
    requires forall l2, l3 :: l2 in spec[l1] && l3 in spec[l1][l2] ==>
      ValidItem(l3, spec[l1][l2][l3], sms) && Trim(l1) != "" && Trim(l2) != ""
    ensures ValidLevel(l1, spec[l1], sms)
  {
    hide ValidItem, Trim;
    forall l2 | l2 in spec[l1]
      ensures ValidItems(l2, spec[l1][l2], sms) && Trim(l1) != ""
    {
      var l3 :| l3 in spec[l1][l2];
    }
    var some :| some in spec[l1];
  }

  // ---------------------------------------------------------------- the cache

  const CACHE_TTL: int := 300

  /** A cached value; a missing expiry reads as a time-to-live that is not positive. */
  datatype Entry = Entry(spec: Spec, ttl: int)

  function Filtered(spec: Spec, layer1: string): (r: Spec)
    ensures layer1 !in r && forall l1 :: l1 != layer1 ==> (l1 in r <==> l1 in spec) && (l1 in r ==> r[l1] == spec[l1])
  {
    map l1 | l1 in spec && l1 != layer1 :: spec[l1]
  }

  /** A specification as it is served: without the test layer, unless the caller may see that. */
  ghost predicate IsServed(r: Spec, spec: Spec, hidden: bool) {
    && (forall l1 :: l1 in r <==> l1 in spec && !(hidden && l1 == "L1-test"))
    && (forall l1 :: l1 in r ==> r[l1] == spec[l1])
  }

  function Served(spec: Spec, hidden: bool): (r: Spec)
    ensures IsServed(r, spec, hidden)
  {
    if hidden then Filtered(spec, "L1-test") else spec
  }

  /** A cached specification that is valid and has at most five minutes to live. */
  predicate Usable(entry: Option<Entry>, sms: bool) {
    entry.Some? && 0 < entry.value.ttl <= 300 && ValidSpec(entry.value.spec, sms)
  }

  class Cache {
    var entry: Option<Entry>

    constructor ()
      ensures entry == None
    {
      entry := None;
    }

    /**
     A usable entry is served and kept; anything else is rebuilt from the rows and cached. What is cached
     is always the whole specification, whether or not this caller sees the test layer.
     */
    method ListAudienceSpec(rows: seq<StoredRow>, sms: bool, hidden: bool) returns (r: Option<Spec>)
      modifies this
      ensures Usable(old(entry), sms) ==>
        entry == old(entry) && r.Some? && IsServed(r.value, entry.value.spec, hidden)
      ensures !Usable(old(entry), sms) ==>
        && (r.Some? <==> Buildable(rows, sms))
        && (r.None? ==> entry == None)
        && (r.Some? ==>
          Usable(entry, sms) && entry.value.ttl == 300 && IsSpecOf(entry.value.spec, ParseAll(rows, sms)) &&
          IsServed(r.value, entry.value.spec, hidden))
    {
      hide Buildable, ValidSpec, IsSpecOf, IsServed, AllAccepted, Leads, ComesFrom;
      if entry.Some? {
        var valid := ValidateSpec(entry.value.spec, sms);
        if 0 < entry.value.ttl <= CACHE_TTL && valid {
          return Some(Served(entry.value.spec, hidden));
        }
        entry := None;
      }
      var built := BuildSpec(rows, sms);
      if built.None? { return None; }
      BuiltSpecIsValid(rows, sms, built.value);
      entry := Some(Entry(built.value, CACHE_TTL));
      return Some(Served(built.value, hidden));
    }
  }
}
