/**
 Finalizing a campaign while drafts of it are saved, prices change and audiences grow or shrink.

 A finalization writes the draft and reads it back with its revision. Without any lock it then looks up
 the prices it will store with the freeze, one table at a time; reads the draft again and looks the
 prices up again, to charge them; and reads the draft and its live capacity once more. Only then does it
 lock the row, compare the revision and freeze the money. The revision covers the draft, not the price
 tables and not the capacity. Saves test the status before they take the lock and not again, and an
 administrator's rescheduling writes back a whole row that it read without a lock.
 */
module CampaignFinalization {
  import opened CampaignPricing
  import opened LedgerResults
  import opened Wrappers

  const MIN_CAPACITY: nat := 500

  type Factor = x: real | x >= 0.0

  /** Whom a draft addresses: a choice of segments, an uploaded file, or a computed audience. */
  datatype Target = Segments(choice: nat) | File(id: nat) | Smart(id: nat, test: bool)
  {
    /** A file and a test's sample may be as small as they like. */
    predicate Bounded() { Segments? || (Smart? && !test) }
  }

  /** What pricing reads off a draft. */
  datatype Draft = Draft(sms: bool, pages: Uint64, line: nat, target: Target, budget: Option<nat>)
  {
    /** A test pays for its whole sample, whatever its budget. */
    function Limit(): Option<nat> { if target.Smart? && target.test then None else budget }
  }

  /** The latest prices by platform and factors by line and segments, and what audiences hold now. */
  datatype World = World(
    base: map<bool, Uint64>,
    page: map<bool, Uint64>,
    lines: map<nat, Factor>,
    segments: map<nat, Factor>,
    capacity: map<Target, nat>)

  datatype Row = Row(draft: Draft, editable: bool, revision: nat)

  /** The four tables in the order they are looked up. */
  datatype Table = Line | Segment | Base | Page

  function Next(t: Table): Option<Table> {
    match t
    case Line => Some(Segment)
    case Segment => Some(Base)
    case Base => Some(Page)
    case Page => None
  }

  /** How many look-ups come before a table's. */
  function Rank(t: Table): nat {
    match t case Line => 0 case Segment => 1 case Base => 2 case Page => 3
  }

  /**
   How far a request has come; each read is remembered, not repeated. `since` is the version of the world
   before its first look-up.
   */
  datatype Request =
    | Checked(finalize: bool)
    | Saved
    | Fixed(revision: nat, first: Draft)
    | Recording(revision: nat, first: Draft, since: nat, stored: PriceFacts, at: Table)
    | Recorded(revision: nat, first: Draft, since: nat, stored: PriceFacts)
    | Costing(revision: nat, first: Draft, since: nat, stored: PriceFacts, second: Draft, charged: PriceFacts,
        at: Table)
    | Costed(revision: nat, first: Draft, since: nat, stored: PriceFacts, second: Draft, charged: PriceFacts)
    | Priced(revision: nat, first: Draft, since: nat, stored: PriceFacts, second: Draft, charged: PriceFacts,
        third: Draft, until: nat, capacity: nat, quote: Quote)
    | Rescheduling(row: Row)

  /**
   A committed freeze: the quote, the facts stored with it, the facts it was charged by, the capacity
   read, the draft stored as final, and the versions of the world between which everything was read.
   */
  datatype Freeze = Freeze(
    quote: Quote, stored: PriceFacts, charged: PriceFacts, capacity: nat, draft: Draft, since: nat, until: nat)

  /** `worlds` lists all versions of the world so far; the last one is in force. */
  datatype State = State(row: Row, worlds: seq<World>, requests: map<nat, Request>, freezes: seq<Freeze>)

  datatype Event =
    | Begin(p: nat, finalize: bool)
    | Save(p: nat, draft: Draft, at: nat)
    | Reread(p: nat)
    | CheckCapacity(p: nat)
    | LookUp(p: nat)
    | ReadDraft(p: nat)
    | ReadCapacity(p: nat)
    | Commit(p: nat, at: nat)
    | Publish(world: World)
    | Peek(p: nat)
    | WriteBack(p: nat, at: nat)
    | Close(at: nat)

  /** What a look-up finds; a missing price, line or segment ends the request, and so does a segment factor of zero. */
  function Found(w: World, d: Draft, f: PriceFacts, t: Table): (r: Option<PriceFacts>) {
    match t
    case Line =>
      if !d.sms then Some(f)
      else if d.line in w.lines then Some(f.(lineFactor := w.lines[d.line])) else None
    case Segment =>
      if !d.target.Segments? then Some(f)
      else if d.target.choice in w.segments && w.segments[d.target.choice] > 0.0 then
        Some(f.(segmentFactor := w.segments[d.target.choice]))
      else None
    case Base => if d.sms in w.base then Some(f.(base := w.base[d.sms])) else None
    case Page => if d.sms in w.page then Some(f.(page := w.page[d.sms])) else None
  }

  /** The facts of a draft before any look-up. */
  function Blank(d: Draft): PriceFacts {
    PriceFacts(d.sms, 0, 0, d.pages, DEFAULT_FACTOR, DEFAULT_FACTOR)
  }

  /** The quote for given facts; a cost that overflows is an error. */
  function QuoteFor(f: PriceFacts, capacity: nat, budget: Option<nat>): (q: Option<Quote>) {
    if !f.Valid() then None
    else
      var price := PricePerMessage(f);
      var audience := if price == 0 then capacity else TargetAudience(price, capacity, budget);
      match CheckedCost(price, audience)
      case None => None
      case Some(cost) => Some(Quote(audience, cost))
  }

  function Now(s: State): (w: World)
    requires s.worlds != []
  {
    s.worlds[|s.worlds| - 1]
  }

  function Advance(s: State, p: nat, r: Request): State {
    s.(requests := s.requests[p := r])
  }

  function Finish(s: State, p: nat): State {
    s.(requests := s.requests - {p})
  }

  /** The next look-up of a request, in either of its two passes. */
  function LookUpNext(s: State, p: nat, q: Request): State
    requires s.worlds != []
  {
    match q
    case Recording(v, a, since, f, t) => (
      match Found(Now(s), a, f, t)
      case None => Finish(s, p)
      case Some(g) =>
        Advance(s, p, if Next(t).Some? then Recording(v, a, since, g, Next(t).value) else Recorded(v, a, since, g)))
    case Costing(v, a, since, f, b, g, t) => (
      match Found(Now(s), b, g, t)
      case None => Finish(s, p)
      case Some(h) =>
        Advance(s, p, if Next(t).Some? then Costing(v, a, since, f, b, h, Next(t).value)
                      else Costed(v, a, since, f, b, h)))
    case _ => s
  }

  /** A step of a request that is not at that point does nothing. */
  function Step(s: State, e: Event): (r: State)
    requires s.worlds != []
    ensures r.worlds != []
  {
    match e
    case Begin(p, finalize) =>
      if p !in s.requests && s.row.editable then Advance(s, p, Checked(finalize)) else s
    case Save(p, draft, at) =>
      if p in s.requests && s.requests[p].Checked? then
        var s' := s.(row := Row(draft, true, at));
        if s.requests[p].finalize then Advance(s', p, Saved) else Finish(s', p)
      else s
    case Reread(p) =>
      if p in s.requests && s.requests[p].Saved? then Advance(s, p, Fixed(s.row.revision, s.row.draft)) else s
    case CheckCapacity(p) =>
      if p in s.requests && s.requests[p].Fixed? then
        var q := s.requests[p];
        var target := s.row.draft.target;
        if target !in Now(s).capacity || (q.first.target.Bounded() && Now(s).capacity[target] < MIN_CAPACITY)
        then Finish(s, p)
        else Advance(s, p, Recording(q.revision, q.first, |s.worlds| - 1, Blank(q.first), Line))
      else s
    case LookUp(p) => if p in s.requests then LookUpNext(s, p, s.requests[p]) else s
    case ReadDraft(p) =>
      if p in s.requests && s.requests[p].Recorded? then
        var q := s.requests[p];
        Advance(s, p, Costing(q.revision, q.first, q.since, q.stored, s.row.draft, Blank(s.row.draft), Line))
      else s
    case ReadCapacity(p) =>
      if p in s.requests && s.requests[p].Costed? then
        var q := s.requests[p];
        var third := if q.second.target.Smart? then q.second else s.row.draft;
        if third.target !in Now(s).capacity then Finish(s, p)
        else
          var capacity := Now(s).capacity[third.target];
          match QuoteFor(q.charged, capacity, q.second.Limit())
          case None => Finish(s, p)
          case Some(quote) =>
            Advance(s, p, Priced(q.revision, q.first, q.since, q.stored, q.second, q.charged,
                                 third, |s.worlds| - 1, capacity, quote))
      else s
    case Commit(p, at) =>
      if p in s.requests && s.requests[p].Priced? then
        var q := s.requests[p];
        if s.row.editable && s.row.revision == q.revision then
          var freeze := Freeze(q.quote, q.stored, q.charged, q.capacity, s.row.draft, q.since, q.until);
          Finish(s.(row := Row(s.row.draft, false, at), freezes := s.freezes + [freeze]), p)
        else Finish(s, p)
      else s
    case Publish(world) => s.(worlds := s.worlds + [world])
    case Peek(p) => if p !in s.requests then Advance(s, p, Rescheduling(s.row)) else s
    case WriteBack(p, at) =>
      if p in s.requests && s.requests[p].Rescheduling? then
        Finish(s.(row := s.requests[p].row.(revision := at)), p)
      else s
    case Close(at) => s.(row := s.row.(editable := false, revision := at))
  }

  function Run(s: State, es: seq<Event>): (r: State)
    requires s.worlds != []
    ensures r.worlds != []
    decreases |es|
  {
    if es == [] then s else Run(Step(s, es[0]), es[1..])
  }

  /** Every write takes a revision that is newer than the row's. */
  predicate Fresh(s: State, e: Event) {
    e.Save? || e.Commit? || e.WriteBack? || e.Close? ==> e.at > s.row.revision
  }

  predicate AllFresh(s: State, es: seq<Event>)
    requires s.worlds != []
    decreases |es|
  {
    es == [] || (Fresh(s, es[0]) && AllFresh(Step(s, es[0]), es[1..]))
  }

  // ---------------------------------------------------------------- a freeze is about the draft stored with it

  /** What facts take from the draft itself, and the factors that are not looked up for it. */
  predicate Own(d: Draft, f: PriceFacts) {
    && f.sms == d.sms && f.pages == d.pages
    && (!d.sms ==> f.lineFactor == DEFAULT_FACTOR)
    && (!d.target.Segments? ==> f.segmentFactor == DEFAULT_FACTOR)
  }

  /** Some version of the world in the range says what the facts say of a table. */
  predicate Seen(worlds: seq<World>, since: nat, end: nat, d: Draft, f: PriceFacts, t: Table) {
    exists k :: since <= k < end && k < |worlds| && Found(worlds[k], d, f, t) == Some(f)
  }

  /** The first tables have been looked up in the range. */
  predicate SeenUpTo(worlds: seq<World>, since: nat, end: nat, d: Draft, f: PriceFacts, n: nat) {
    forall t: Table :: Rank(t) < n ==> Seen(worlds, since, end, d, f, t)
  }

  /** A request whose revision is still the row's has read nothing but the row's draft. */
  predicate Current(row: Row, q: Request) {
    match q
    case Checked(_) => true
    case Saved => true
    case Rescheduling(_) => true
    case Fixed(v, a) => v <= row.revision && (v == row.revision ==> a == row.draft)
    case Recording(v, a, _, _, _) => v <= row.revision && (v == row.revision ==> a == row.draft)
    case Recorded(v, a, _, _) => v <= row.revision && (v == row.revision ==> a == row.draft)
    case Costing(v, a, _, _, b, _, _) => v <= row.revision && (v == row.revision ==> a == b == row.draft)
    case Costed(v, a, _, _, b, _) => v <= row.revision && (v == row.revision ==> a == b == row.draft)
    case Priced(v, a, _, _, b, _, c, _, _, _) => v <= row.revision && (v == row.revision ==> a == b == c == row.draft)
  }

  /** Everything a request has looked up was published at some time since it began to look. */
  predicate Explained(worlds: seq<World>, q: Request) {
    match q
    case Checked(_) => true
    case Saved => true
    case Rescheduling(_) => true
    case Fixed(_, _) => true
    case Recording(_, a, since, f, t) =>
      since < |worlds| && Own(a, f) && SeenUpTo(worlds, since, |worlds|, a, f, Rank(t))
    case Recorded(_, a, since, f) => since < |worlds| && Own(a, f) && SeenUpTo(worlds, since, |worlds|, a, f, 4)
    case Costing(_, a, since, f, b, g, t) =>
      && since < |worlds| && Own(a, f) && SeenUpTo(worlds, since, |worlds|, a, f, 4)
      && Own(b, g) && SeenUpTo(worlds, since, |worlds|, b, g, Rank(t))
    case Costed(_, a, since, f, b, g) =>
      && since < |worlds| && Own(a, f) && SeenUpTo(worlds, since, |worlds|, a, f, 4)
      && Own(b, g) && SeenUpTo(worlds, since, |worlds|, b, g, 4)
    case Priced(_, a, since, f, b, g, c, until, capacity, quote) =>
      && since <= until < |worlds| && Own(a, f) && SeenUpTo(worlds, since, until + 1, a, f, 4)
      && Own(b, g) && SeenUpTo(worlds, since, until + 1, b, g, 4)
      && c.target in worlds[until].capacity && worlds[until].capacity[c.target] == capacity
      && QuoteFor(g, capacity, b.Limit()) == Some(quote)
  }

  /**
   Everything in a freeze is about the stored draft: the facts stored and the facts charged by are that
   draft's own and were published, entry by entry, while the request looked; the capacity is what the
   draft's audience held then; and the quote is the one the charged facts, that capacity and the draft's
   budget give.
   */
  predicate Honest(worlds: seq<World>, f: Freeze) {
    && f.since <= f.until < |worlds|
    && Own(f.draft, f.stored) && SeenUpTo(worlds, f.since, f.until + 1, f.draft, f.stored, 4)
    && Own(f.draft, f.charged) && SeenUpTo(worlds, f.since, f.until + 1, f.draft, f.charged, 4)
    && f.draft.target in worlds[f.until].capacity && worlds[f.until].capacity[f.draft.target] == f.capacity
    && QuoteFor(f.charged, f.capacity, f.draft.Limit()) == Some(f.quote)
  }

  ghost predicate Inv(s: State) {
    && s.worlds != []
    && (forall p :: p in s.requests ==> Current(s.row, s.requests[p]) && Explained(s.worlds, s.requests[p]))
    && (forall f :: f in s.freezes ==> Honest(s.worlds, f))
  }

  /** What was seen stays seen when the world moves on. */
  lemma {:induction false} SeenLater(worlds: seq<World>, w: World, since: nat, end: nat, later: nat, d: Draft,
      f: PriceFacts, n: nat)
    requires SeenUpTo(worlds, since, end, d, f, n) && end <= |worlds| && end <= later
    ensures SeenUpTo(worlds + [w], since, later, d, f, n)
  {
    hide Found;
    forall t: Table | Rank(t) < n
      ensures Seen(worlds + [w], since, later, d, f, t)
    {
      assert Seen(worlds, since, end, d, f, t);
      var k :| since <= k < end && k < |worlds| && Found(worlds[k], d, f, t) == Some(f);
      assert (worlds + [w])[k] == worlds[k];
    }
  }

  /** A look-up adds its table to what was seen, and disturbs no other. */
  lemma {:induction false} LookUpSees(worlds: seq<World>, since: nat, d: Draft, f: PriceFacts, t: Table, g: PriceFacts)
    requires since < |worlds| && Own(d, f) && SeenUpTo(worlds, since, |worlds|, d, f, Rank(t))
    requires Found(worlds[|worlds| - 1], d, f, t) == Some(g)
    ensures Own(d, g) && SeenUpTo(worlds, since, |worlds|, d, g, Rank(t) + 1)
  {
    forall u: Table | Rank(u) < Rank(t) + 1
      ensures Seen(worlds, since, |worlds|, d, g, u)
    {
      if u == t {
        assert Found(worlds[|worlds| - 1], d, g, t) == Some(g);
      } else {
        assert Seen(worlds, since, |worlds|, d, f, u);
        var k :| since <= k < |worlds| && Found(worlds[k], d, f, u) == Some(f);
        assert Found(worlds[k], d, g, u) == Some(g);
      }
    }
  }

  /** One request moves on, or ends; everything else stays. */
  lemma {:induction false} AdvanceKeepsInv(s: State, p: nat, q: Request)
    requires Inv(s) && Current(s.row, q) && Explained(s.worlds, q)
    ensures Inv(Advance(s, p, q))
  {
    hide Current, Explained, Honest;
  }

  lemma {:induction false} FinishKeepsInv(s: State, p: nat)
    requires Inv(s)
    ensures Inv(Finish(s, p))
  {
    hide Current, Explained, Honest;
  }

  /** A newer row makes all requests that have read the old one stale. */
  lemma {:induction false} WriteKeepsInv(s: State, row: Row)
    requires Inv(s) && row.revision > s.row.revision
    ensures Inv(s.(row := row))
  {
    hide Explained, Honest;
  }

  lemma {:induction false} ExplainedLater(worlds: seq<World>, w: World, q: Request)
    requires Explained(worlds, q)
    ensures Explained(worlds + [w], q)
  {
    hide SeenUpTo, QuoteFor, Own;
    var n := |worlds|;
    match q
    case Recording(_, a, since, f, t) => SeenLater(worlds, w, since, n, n + 1, a, f, Rank(t));
    case Recorded(_, a, since, f) => SeenLater(worlds, w, since, n, n + 1, a, f, 4);
    case Costing(_, a, since, f, b, g, t) =>
      SeenLater(worlds, w, since, n, n + 1, a, f, 4);
      SeenLater(worlds, w, since, n, n + 1, b, g, Rank(t));
    case Costed(_, a, since, f, b, g) =>
      SeenLater(worlds, w, since, n, n + 1, a, f, 4);
      SeenLater(worlds, w, since, n, n + 1, b, g, 4);
    case Priced(_, a, since, f, b, g, _, until, _, _) =>
      SeenLater(worlds, w, since, until + 1, until + 1, a, f, 4);
      SeenLater(worlds, w, since, until + 1, until + 1, b, g, 4);
    case _ =>
  }

  lemma {:induction false} HonestLater(worlds: seq<World>, w: World, f: Freeze)
    requires Honest(worlds, f)
    ensures Honest(worlds + [w], f)
  {
    hide SeenUpTo, QuoteFor, Own;
    SeenLater(worlds, w, f.since, f.until + 1, f.until + 1, f.draft, f.stored, 4);
    SeenLater(worlds, w, f.since, f.until + 1, f.until + 1, f.draft, f.charged, 4);
  }

  lemma {:induction false} PublishKeepsInv(s: State, w: World)
    requires Inv(s)
    ensures Inv(s.(worlds := s.worlds + [w]))
  {
    hide Current, Explained, Honest;
    forall p | p in s.requests
      ensures Explained(s.worlds + [w], s.requests[p])
    {
      ExplainedLater(s.worlds, w, s.requests[p]);
    }
    forall f | f in s.freezes
      ensures Honest(s.worlds + [w], f)
    {
      HonestLater(s.worlds, w, f);
    }
  }

  lemma {:induction false} LookUpKeepsInv(s: State, p: nat)
    requires Inv(s) && p in s.requests
    ensures Inv(LookUpNext(s, p, s.requests[p]))
  {
    hide Found, Own, SeenUpTo, Honest, Inv;
    var q := s.requests[p];
    assert Current(s.row, q) && Explained(s.worlds, q) by { Fits(s, p); }
    match q
    case Recording(v, a, since, f, t) =>
      if Found(Now(s), a, f, t).Some? {
        var g := Found(Now(s), a, f, t).value;
        LookUpSees(s.worlds, since, a, f, t, g);
        AdvanceKeepsInv(
          s, p, if Next(t).Some? then Recording(v, a, since, g, Next(t).value) else Recorded(v, a, since, g));
      } else {
        FinishKeepsInv(s, p);
      }
    case Costing(v, a, since, f, b, g, t) =>
      if Found(Now(s), b, g, t).Some? {
        var h := Found(Now(s), b, g, t).value;
        LookUpSees(s.worlds, since, b, g, t, h);
        AdvanceKeepsInv(s, p, if Next(t).Some? then Costing(v, a, since, f, b, h, Next(t).value)
                              else Costed(v, a, since, f, b, h));
      } else {
        FinishKeepsInv(s, p);
      }
    case _ =>
  }

  lemma {:induction false} Fits(s: State, p: nat)
    requires Inv(s) && p in s.requests
    ensures Current(s.row, s.requests[p]) && Explained(s.worlds, s.requests[p])
  {
  }

  lemma {:induction false} ReadCapacityKeepsInv(s: State, p: nat)
    requires Inv(s)
    ensures Inv(Step(s, ReadCapacity(p)))
  {
    hide Found, Own, SeenUpTo, Honest, QuoteFor, Inv;
    if p in s.requests && s.requests[p].Costed? {
      Fits(s, p);
      assert s.worlds != [] by { HasWorlds(s); }
      var t := Step(s, ReadCapacity(p));
      if p in t.requests {
        AdvanceKeepsInv(s, p, t.requests[p]);
      } else {
        FinishKeepsInv(s, p);
      }
    }
  }

  lemma {:induction false} HasWorlds(s: State)
    requires Inv(s)
    ensures s.worlds != []
  {
  }

  lemma {:induction false} CommitKeepsInv(s: State, p: nat, at: nat)
    requires Inv(s) && at > s.row.revision
    ensures Inv(Step(s, Commit(p, at)))
  {
    hide Found, Own, SeenUpTo, QuoteFor;
    if p in s.requests && s.requests[p].Priced? {
      var q := s.requests[p];
      Fits(s, p);
      if s.row.editable && s.row.revision == q.revision {
        var freeze := Freeze(q.quote, q.stored, q.charged, q.capacity, s.row.draft, q.since, q.until);
        assert Honest(s.worlds, freeze);
        hide Explained, Honest;
        WriteKeepsInv(s, Row(s.row.draft, false, at));
      } else {
        hide Explained, Honest;
      }
    }
  }

  lemma {:induction false} StepKeepsInv(s: State, e: Event)
    requires Inv(s) && Fresh(s, e)
    ensures Inv(Step(s, e))
  {
    hide Found, Own, Honest, QuoteFor, Inv;
    HasWorlds(s);
    match e
    case Begin(p, finalize) => if p !in s.requests && s.row.editable { AdvanceKeepsInv(s, p, Checked(finalize)); }
    case Save(p, draft, at) =>
      if p in s.requests && s.requests[p].Checked? {
        WriteKeepsInv(s, Row(draft, true, at));
        AdvanceKeepsInv(s.(row := Row(draft, true, at)), p, Saved);
        FinishKeepsInv(s.(row := Row(draft, true, at)), p);
      }
    case Reread(p) =>
      if p in s.requests && s.requests[p].Saved? { AdvanceKeepsInv(s, p, Fixed(s.row.revision, s.row.draft)); }
    case CheckCapacity(p) =>
      if p in s.requests && s.requests[p].Fixed? {
        var q := s.requests[p];
        Fits(s, p);
        BlankIsOwn(q.first);
        FinishKeepsInv(s, p);
        AdvanceKeepsInv(s, p, Recording(q.revision, q.first, |s.worlds| - 1, Blank(q.first), Line));
      }
    case LookUp(p) => if p in s.requests { LookUpKeepsInv(s, p); }
    case ReadDraft(p) =>
      if p in s.requests && s.requests[p].Recorded? {
        var q := s.requests[p];
        Fits(s, p);
        BlankIsOwn(s.row.draft);
        AdvanceKeepsInv(
          s, p, Costing(q.revision, q.first, q.since, q.stored, s.row.draft, Blank(s.row.draft), Line));
      }
    case ReadCapacity(p) => ReadCapacityKeepsInv(s, p);
    case Commit(p, at) => CommitKeepsInv(s, p, at);
    case Publish(world) => PublishKeepsInv(s, world);
    case Peek(p) => if p !in s.requests { AdvanceKeepsInv(s, p, Rescheduling(s.row)); }
    case WriteBack(p, at) =>
      if p in s.requests && s.requests[p].Rescheduling? {
        WriteKeepsInv(s, s.requests[p].row.(revision := at));
        FinishKeepsInv(s.(row := s.requests[p].row.(revision := at)), p);
      }
    case Close(at) => WriteKeepsInv(s, s.row.(editable := false, revision := at));
  }

  lemma {:induction false} BlankIsOwn(d: Draft)
    ensures Own(d, Blank(d)) && forall worlds, since, end :: SeenUpTo(worlds, since, end, d, Blank(d), 0)
  {
  }

  lemma {:induction false} RunKeepsInv(s: State, es: seq<Event>)
    requires Inv(s) && AllFresh(s, es)
    ensures Inv(Run(s, es))
    decreases |es|
  {
    if es != [] {
      StepKeepsInv(s, es[0]);
      hide Inv, Step, Fresh;
      RunKeepsInv(Step(s, es[0]), es[1..]);
    }
  }

  function Idle(row: Row, world: World): State {
    State(row, [world], map[], [])
  }

  /**
   In any interleaving of saves, finalizations, other writes and published prices, with increasing
   revisions, a freeze that commits is about exactly the draft stored with it.
   */
  lemma {:induction false} EveryFreezeIsHonest(row: Row, world: World, es: seq<Event>, f: Freeze)
    requires AllFresh(Idle(row, world), es) && f in Run(Idle(row, world), es).freezes
    ensures Honest(Run(Idle(row, world), es).worlds, f)
  {
    hide Run, AllFresh;
    RunKeepsInv(Idle(row, world), es);
  }

  /** At some version in the range the world gave the draft's platform this price. */
  predicate BaseWas(worlds: seq<World>, since: nat, until: nat, d: Draft, base: Uint64) {
    exists k :: since <= k <= until && k < |worlds| && d.sms in worlds[k].base && worlds[k].base[d.sms] == base
  }

  predicate PageWas(worlds: seq<World>, since: nat, until: nat, d: Draft, page: Uint64) {
    exists k :: since <= k <= until && k < |worlds| && d.sms in worlds[k].page && worlds[k].page[d.sms] == page
  }

  /** And its line, or its segments, this factor. */
  predicate LineWas(worlds: seq<World>, since: nat, until: nat, d: Draft, factor: real) {
    exists k :: since <= k <= until && k < |worlds| && d.line in worlds[k].lines && worlds[k].lines[d.line] == factor
  }

  predicate SegmentWas(worlds: seq<World>, since: nat, until: nat, d: Draft, factor: real) {
    exists k :: since <= k <= until && k < |worlds| && d.target.Segments? &&
      d.target.choice in worlds[k].segments && worlds[k].segments[d.target.choice] == factor
  }

  /** Facts about a draft that the world published, table by table, between two of its versions. */
  predicate Published(worlds: seq<World>, since: nat, until: nat, d: Draft, f: PriceFacts) {
    && f.sms == d.sms && f.pages == d.pages
    && BaseWas(worlds, since, until, d, f.base) && PageWas(worlds, since, until, d, f.page)
    && (if d.sms then LineWas(worlds, since, until, d, f.lineFactor) else f.lineFactor == 1.0)
    && (if d.target.Segments? then f.segmentFactor > 0.0 && SegmentWas(worlds, since, until, d, f.segmentFactor)
        else f.segmentFactor == 1.0)
  }

  lemma {:induction false} LineSeen(worlds: seq<World>, since: nat, until: nat, d: Draft, f: PriceFacts)
    requires Seen(worlds, since, until + 1, d, f, Line) && d.sms
    ensures LineWas(worlds, since, until, d, f.lineFactor)
  {
    var k :| since <= k < until + 1 && k < |worlds| && Found(worlds[k], d, f, Line) == Some(f);
    assert f == f.(lineFactor := worlds[k].lines[d.line]);
  }

  lemma {:induction false} SegmentSeen(worlds: seq<World>, since: nat, until: nat, d: Draft, f: PriceFacts)
    requires Seen(worlds, since, until + 1, d, f, Segment) && d.target.Segments?
    ensures f.segmentFactor > 0.0 && SegmentWas(worlds, since, until, d, f.segmentFactor)
  {
    var k :| since <= k < until + 1 && k < |worlds| && Found(worlds[k], d, f, Segment) == Some(f);
    assert f == f.(segmentFactor := worlds[k].segments[d.target.choice]);
  }

  lemma {:induction false} BaseSeen(worlds: seq<World>, since: nat, until: nat, d: Draft, f: PriceFacts)
    requires Seen(worlds, since, until + 1, d, f, Base)
    ensures BaseWas(worlds, since, until, d, f.base)
  {
    var k :| since <= k < until + 1 && k < |worlds| && Found(worlds[k], d, f, Base) == Some(f);
    assert f == f.(base := worlds[k].base[d.sms]);
  }

  lemma {:induction false} PageSeen(worlds: seq<World>, since: nat, until: nat, d: Draft, f: PriceFacts)
    requires Seen(worlds, since, until + 1, d, f, Page)
    ensures PageWas(worlds, since, until, d, f.page)
  {
    var k :| since <= k < until + 1 && k < |worlds| && Found(worlds[k], d, f, Page) == Some(f);
    assert f == f.(page := worlds[k].page[d.sms]);
  }

  lemma {:induction false} SeenIsPublished(worlds: seq<World>, since: nat, until: nat, d: Draft, f: PriceFacts)
    requires Own(d, f) && SeenUpTo(worlds, since, until + 1, d, f, 4)
    ensures Published(worlds, since, until, d, f)
  {
    hide Seen, LineWas, SegmentWas, BaseWas, PageWas;
    if d.sms { LineSeen(worlds, since, until, d, f); }
    if d.target.Segments? { SegmentSeen(worlds, since, until, d, f); }
    BaseSeen(worlds, since, until, d, f);
    PageSeen(worlds, since, until, d, f);
  }

  /**
   Both the facts a freeze stores and those it charges by are the stored draft's platform, parts, line and
   segments, at prices and factors that were in force while the request looked; and its capacity is what the
   draft's audience then held.
   */
  lemma {:induction false} FreezeFactsWerePublished(row: Row, world: World, es: seq<Event>, f: Freeze)
    requires AllFresh(Idle(row, world), es) && f in Run(Idle(row, world), es).freezes
    ensures
      var worlds := Run(Idle(row, world), es).worlds;
      && f.since <= f.until < |worlds|
      && Published(worlds, f.since, f.until, f.draft, f.stored)
      && Published(worlds, f.since, f.until, f.draft, f.charged)
      && f.draft.target in worlds[f.until].capacity && worlds[f.until].capacity[f.draft.target] == f.capacity
  {
    hide Run, AllFresh, QuoteFor, SeenUpTo, Own, Published;
    EveryFreezeIsHonest(row, world, es, f);
    var worlds := Run(Idle(row, world), es).worlds;
    SeenIsPublished(worlds, f.since, f.until, f.draft, f.stored);
    SeenIsPublished(worlds, f.since, f.until, f.draft, f.charged);
  }

  /** A finalization passes the capacity check iff its audience is known and, but for files and tests, holds 500. */
  lemma {:induction false} AdmittedIff(s: State, p: nat)
    requires s.worlds != [] && p in s.requests && s.requests[p].Fixed?
    ensures
      var w, target := s.worlds[|s.worlds| - 1], s.row.draft.target;
      var first := s.requests[p].first.target;
      p in Step(s, CheckCapacity(p)).requests <==>
        target in w.capacity && (w.capacity[target] >= 500 || first.File? || (first.Smart? && first.test))
  {
  }

  // ---------------------------------------------------------------- when a freeze is worth what it stores

  lemma {:induction false} HonestFactsAreValid(worlds: seq<World>, f: Freeze)
    requires Honest(worlds, f)
    ensures f.charged.Valid() && f.stored.Valid()
    ensures f.quote.totalCost == PricePerMessage(f.charged) * f.quote.audience <= MAX_UINT64
    ensures f.quote.audience <= f.capacity
  {
    hide PricePerMessage;
    assert Seen(worlds, f.since, f.until + 1, f.draft, f.stored, Line);
    assert Seen(worlds, f.since, f.until + 1, f.draft, f.stored, Segment);
  }

  /**
   The ledger's settlement may rely on a freeze exactly when the two look-ups gave the same price and the
   stored one can be rebuilt: no more follows from the revision, and no more is needed.
   */
  lemma {:induction false} FreezeIsWellPricedIff(row: Row, world: World, es: seq<Event>, f: Freeze)
    requires AllFresh(Idle(row, world), es) && f in Run(Idle(row, world), es).freezes
    ensures f.stored.Valid() && f.charged.Valid() && f.quote.audience <= f.capacity
    ensures WellPriced(f.quote, f.stored) <==>
      && f.stored.base > 0 && f.stored.page > 0 && (f.stored.sms ==> f.stored.lineFactor > 0.0)
      && (PricePerMessage(f.stored) == PricePerMessage(f.charged) || f.quote.audience == 0)
  {
    hide Run, AllFresh, PricePerMessage, Honest;
    EveryFreezeIsHonest(row, world, es, f);
    HonestFactsAreValid(Run(Idle(row, world), es).worlds, f);
    var p, q, n := PricePerMessage(f.stored), PricePerMessage(f.charged), f.quote.audience;
    SameCostIff(p, q, n);
  }

  /** The draft buys its whole audience: it states no budget, or it is a smart targeting test. */
  predicate BuysAll(d: Draft) {
    d.budget.None? || (d.target.Smart? && d.target.test)
  }

  /**
   A freeze buys the whole capacity when the draft states no budget or is a test. Otherwise it costs no more
   than the budget, and unless it buys the whole capacity one message more would. At a price of zero it
   buys everything.
   */
  lemma {:induction false} FreezeSpendsTheBudget(row: Row, world: World, es: seq<Event>, f: Freeze)
    requires AllFresh(Idle(row, world), es) && f in Run(Idle(row, world), es).freezes
    ensures
      && f.charged.Valid()
      && var price := PricePerMessage(f.charged);
      if BuysAll(f.draft) || price == 0 then f.quote.audience == f.capacity
      else
        && f.quote.audience <= f.capacity && f.quote.totalCost == price * f.quote.audience
        && f.quote.totalCost <= f.draft.budget.value
        && (f.quote.audience < f.capacity ==> f.quote.totalCost + price > f.draft.budget.value)
  {
    hide Run, AllFresh, PricePerMessage, SeenUpTo, Own;
    EveryFreezeIsHonest(row, world, es, f);
    var price, n := PricePerMessage(f.charged), f.quote.audience;
    assert price * (n + 1) == price * n + price;
  }

  lemma {:induction false} SameCostIff(p: nat, q: nat, n: nat)
    ensures p * n == q * n <==> p == q || n == 0
  {
    if p < q {
      MulDiffers(p, q, n);
    } else if q < p {
      MulDiffers(q, p, n);
    }
  }

  lemma {:induction false} MulDiffers(p: nat, q: nat, n: nat)
    requires p < q
    ensures p * n < q * n || n == 0
  {
    assert q * n == p * n + (q - p) * n;
  }

  /** For a draft, two versions of the world say the same of every table. */
  predicate Agree(a: World, b: World, d: Draft) {
    forall t: Table :: Found(a, d, Blank(d), t) == Found(b, d, Blank(d), t)
  }

  /** From its first look-up to its last no price of the draft changed. */
  predicate PricesStill(worlds: seq<World>, f: Freeze)
    requires f.since <= f.until < |worlds|
  {
    forall k :: f.since <= k <= f.until ==> Agree(worlds[f.since], worlds[k], f.draft)
  }

  /** Then the freeze stores what it charged, and is worth what its stored facts say. */
  lemma {:induction false} StillPricesAreStored(row: Row, world: World, es: seq<Event>, f: Freeze)
    requires AllFresh(Idle(row, world), es) && f in Run(Idle(row, world), es).freezes
    ensures
      var worlds := Run(Idle(row, world), es).worlds;
      f.since <= f.until < |worlds| &&
      (PricesStill(worlds, f) ==> f.stored == f.charged)
  {
    hide Run, AllFresh, QuoteFor;
    EveryFreezeIsHonest(row, world, es, f);
    var worlds := Run(Idle(row, world), es).worlds;
    if PricesStill(worlds, f) {
      hide Found, SeenUpTo, PricesStill, Agree, Own;
      SameEntry(worlds, f, Line);
      SameEntry(worlds, f, Segment);
      SameEntry(worlds, f, Base);
      SameEntry(worlds, f, Page);
      SameEntries(f);
    }
  }

  /** What one table says in facts. */
  function Entry(f: PriceFacts, t: Table): real {
    match t
    case Line => f.lineFactor
    case Segment => f.segmentFactor
    case Base => f.base as real
    case Page => f.page as real
  }

  lemma {:induction false} SameEntries(f: Freeze)
    requires Own(f.draft, f.stored) && Own(f.draft, f.charged)
    requires Entry(f.stored, Line) == Entry(f.charged, Line) && Entry(f.stored, Segment) == Entry(f.charged, Segment)
    requires Entry(f.stored, Base) == Entry(f.charged, Base) && Entry(f.stored, Page) == Entry(f.charged, Page)
    ensures f.stored == f.charged
  {
  }

  lemma {:induction false} SameEntry(worlds: seq<World>, f: Freeze, t: Table)
    requires Honest(worlds, f) && PricesStill(worlds, f)
    ensures Entry(f.stored, t) == Entry(f.charged, t)
  {
    hide QuoteFor, Found, Agree;
    assert Seen(worlds, f.since, f.until + 1, f.draft, f.stored, t);
    assert Seen(worlds, f.since, f.until + 1, f.draft, f.charged, t);
    var j :| f.since <= j <= f.until && Found(worlds[j], f.draft, f.stored, t) == Some(f.stored);
    var k :| f.since <= k <= f.until && Found(worlds[k], f.draft, f.charged, t) == Some(f.charged);
    EntryIsFound(worlds[j], f.draft, f.stored, t);
    EntryIsFound(worlds[k], f.draft, f.charged, t);
    assert Agree(worlds[f.since], worlds[j], f.draft) && Agree(worlds[f.since], worlds[k], f.draft);
    AgreeOn(worlds[f.since], worlds[j], f.draft, t);
    AgreeOn(worlds[f.since], worlds[k], f.draft, t);
  }

  lemma {:induction false} AgreeOn(a: World, b: World, d: Draft, t: Table)
    requires Agree(a, b, d)
    ensures Found(a, d, Blank(d), t) == Found(b, d, Blank(d), t)
  {
  }

  /** A table's entry does not depend on what else is known. */
  lemma {:induction false} EntryIsFound(w: World, d: Draft, f: PriceFacts, t: Table)
    requires Own(d, f) && Found(w, d, f, t) == Some(f)
    ensures Found(w, d, Blank(d), t).Some? && Entry(f, t) == Entry(Found(w, d, Blank(d), t).value, t)
  {
  }

  // ---------------------------------------------------------------- runs of one request

  lemma {:induction false} RunInParts(s: State, a: seq<Event>, b: seq<Event>)
    requires s.worlds != []
    ensures Run(s, a + b) == Run(Run(s, a), b)
    ensures AllFresh(s, a + b) <==> AllFresh(s, a) && AllFresh(Run(s, a), b)
    decreases |a|
  {
    hide Step, Fresh;
    if a == [] {
      assert a + b == b;
    } else {
      assert (a + b)[0] == a[0] && (a + b)[1..] == a[1..] + b;
      RunInParts(Step(s, a[0]), a[1..], b);
    }
  }

  lemma {:induction false} RunOne(s: State, e: Event)
    requires s.worlds != []
    ensures Run(s, [e]) == Step(s, e) && (AllFresh(s, [e]) <==> Fresh(s, e))
  {
    hide Step, Fresh;
    assert [e][1..] == [];
  }

  lemma {:induction false} RunTwo(s: State, a: Event, b: Event)
    requires s.worlds != []
    ensures Run(s, [a, b]) == Step(Step(s, a), b)
    ensures AllFresh(s, [a, b]) <==> Fresh(s, a) && Fresh(Step(s, a), b)
  {
    hide Run, AllFresh, Step, Fresh;
    assert [a, b] == [a] + [b];
    RunInParts(s, [a], [b]);
    RunOne(s, a);
    RunOne(Step(s, a), b);
  }

  lemma {:induction false} RunFour(s: State, a: Event, b: Event, c: Event, d: Event)
    requires s.worlds != []
    ensures Run(s, [a, b, c, d]) == Step(Step(Step(Step(s, a), b), c), d)
    ensures AllFresh(s, [a, b, c, d]) <==>
      Fresh(s, a) && Fresh(Step(s, a), b) && Fresh(Step(Step(s, a), b), c) && Fresh(Step(Step(Step(s, a), b), c), d)
  {
    hide Run, AllFresh, Step, Fresh;
    assert [a, b, c, d] == [a, b] + [c, d];
    RunInParts(s, [a, b], [c, d]);
    RunTwo(s, a, b);
    RunTwo(Step(Step(s, a), b), c, d);
  }

  /** The facts of a draft when nothing is published while they are looked up. */
  function Facts(w: World, d: Draft): Option<PriceFacts> {
    match Found(w, d, Blank(d), Line)
    case None => None
    case Some(a) =>
      match Found(w, d, a, Segment)
      case None => None
      case Some(b) =>
        match Found(w, d, b, Base)
        case None => None
        case Some(c) => Found(w, d, c, Page)
  }

  function LookUps(p: nat): seq<Event> {
    [LookUp(p), LookUp(p), LookUp(p), LookUp(p)]
  }

  lemma {:induction false} RecordsAlone(s: State, p: nat, v: nat, a: Draft, since: nat)
    requires s.worlds != [] && p in s.requests && s.requests[p] == Recording(v, a, since, Blank(a), Line)
    requires Facts(Now(s), a).Some?
    ensures Run(s, LookUps(p)) == Advance(s, p, Recorded(v, a, since, Facts(Now(s), a).value))
    ensures AllFresh(s, LookUps(p))
  {
    hide Run, AllFresh, Found;
    RunFour(s, LookUp(p), LookUp(p), LookUp(p), LookUp(p));
  }

  lemma {:induction false} CostsAlone(s: State, p: nat, v: nat, a: Draft, since: nat, f: PriceFacts, b: Draft)
    requires s.worlds != [] && p in s.requests && s.requests[p] == Costing(v, a, since, f, b, Blank(b), Line)
    requires Facts(Now(s), b).Some?
    ensures Run(s, LookUps(p)) == Advance(s, p, Costed(v, a, since, f, b, Facts(Now(s), b).value))
    ensures AllFresh(s, LookUps(p))
  {
    hide Run, AllFresh, Found;
    RunFour(s, LookUp(p), LookUp(p), LookUp(p), LookUp(p));
  }

  /** The draft can be priced in this world, and the quote it gets. */
  predicate Sellable(w: World, d: Draft) {
    && Facts(w, d).Some? && d.target in w.capacity && w.capacity[d.target] >= MIN_CAPACITY
    && QuoteFor(Facts(w, d).value, w.capacity[d.target], d.Limit()).Some?
  }

  function QuoteIn(w: World, d: Draft): Quote
    requires Sellable(w, d)
  {
    QuoteFor(Facts(w, d).value, w.capacity[d.target], d.Limit()).value
  }

  /** A request saves a draft and records its prices. */
  function First(p: nat, d: Draft, at: nat): seq<Event> {
    [Save(p, d, at), Reread(p)] + ([CheckCapacity(p)] + LookUps(p))
  }

  /** It reads the draft again and prices it. */
  function Second(p: nat): seq<Event> {
    [ReadDraft(p)] + (LookUps(p) + [ReadCapacity(p)])
  }

  lemma {:induction false} FirstAlone(s: State, p: nat, d: Draft, at: nat)
    requires s.worlds != [] && p in s.requests && s.requests[p] == Checked(true) && Sellable(Now(s), d)
    ensures
      Run(s, First(p, d, at)) ==
      Advance(s.(row := Row(d, true, at)), p, Recorded(at, d, |s.worlds| - 1, Facts(Now(s), d).value))
    ensures at > s.row.revision ==> AllFresh(s, First(p, d, at))
  {
    hide Run, AllFresh, Facts, QuoteFor;
    RunInParts(s, [Save(p, d, at), Reread(p)], [CheckCapacity(p)] + LookUps(p));
    RunTwo(s, Save(p, d, at), Reread(p));
    var a := Step(Step(s, Save(p, d, at)), Reread(p));
    assert a == Advance(s.(row := Row(d, true, at)), p, Fixed(at, d));
    RunInParts(a, [CheckCapacity(p)], LookUps(p));
    RunOne(a, CheckCapacity(p));
    var b := Step(a, CheckCapacity(p));
    assert b == Advance(a, p, Recording(at, d, |s.worlds| - 1, Blank(d), Line));
    RecordsAlone(b, p, at, d, |s.worlds| - 1);
  }

  lemma {:induction false} SecondAlone(s: State, p: nat, v: nat, a: Draft, since: nat, f: PriceFacts)
    requires s.worlds != [] && p in s.requests && s.requests[p] == Recorded(v, a, since, f)
    requires Sellable(Now(s), s.row.draft)
    ensures
      var w, d := Now(s), s.row.draft;
      Run(s, Second(p)) ==
      Advance(s, p, Priced(
        v, a, since, f, d, Facts(w, d).value, d, |s.worlds| - 1, w.capacity[d.target], QuoteIn(w, d)))
    ensures AllFresh(s, Second(p))
  {
    hide Run, AllFresh, Facts, QuoteFor;
    var d := s.row.draft;
    RunInParts(s, [ReadDraft(p)], LookUps(p) + [ReadCapacity(p)]);
    RunOne(s, ReadDraft(p));
    var b := Step(s, ReadDraft(p));
    assert b == Advance(s, p, Costing(v, a, since, f, d, Blank(d), Line));
    RunInParts(b, LookUps(p), [ReadCapacity(p)]);
    CostsAlone(b, p, v, a, since, f, d);
    var c := Advance(s, p, Costed(v, a, since, f, d, Facts(Now(s), d).value));
    assert Run(b, LookUps(p)) == c;
    RunOne(c, ReadCapacity(p));
  }

  // ---------------------------------------------------------------- what breaks a freeze

  /**
   A price that is published between the two look-ups is charged but not stored: the refund job will
   rebuild a price that nobody paid.
   */
  lemma {:induction false} RepricedBetweenLookUps(d: Draft, before: World, after: World)
    requires Sellable(before, d) && Sellable(after, d) && QuoteIn(after, d).audience > 0
    requires PricePerMessage(Facts(before, d).value) != PricePerMessage(Facts(after, d).value)
    ensures
      var es := [Begin(0, true)] + (First(0, d, 1) + ([Publish(after)] + (Second(0) + [Commit(0, 2)])));
      var s := Run(Idle(Row(d, true, 0), before), es);
      && AllFresh(Idle(Row(d, true, 0), before), es)
      && s.freezes == [Freeze(
           QuoteIn(after, d), Facts(before, d).value, Facts(after, d).value, after.capacity[d.target], d, 0, 1)]
      && !WellPriced(s.freezes[0].quote, s.freezes[0].stored)
  {
    hide Run, AllFresh, Facts, QuoteFor, PricePerMessage;
    var last := [Publish(after)] + (Second(0) + [Commit(0, 2)]);
    var s0 := Idle(Row(d, true, 0), before);
    var s1 := Advance(s0, 0, Checked(true));
    RunInParts(s0, [Begin(0, true)], First(0, d, 1) + last);
    RunOne(s0, Begin(0, true));
    RunInParts(s1, First(0, d, 1), last);
    FirstAlone(s1, 0, d, 1);
    RepricedFrom(Run(s1, First(0, d, 1)), d, before, after);
    QuotesCost(before, d);
    QuotesCost(after, d);
    SameCostIff(
      PricePerMessage(Facts(before, d).value), PricePerMessage(Facts(after, d).value), QuoteIn(after, d).audience);
  }

  lemma {:induction false} RepricedFrom(s: State, d: Draft, before: World, after: World)
    requires Sellable(before, d) && Sellable(after, d) && s.worlds == [before] && s.row == Row(d, true, 1)
    requires s.requests == map[0 := Recorded(1, d, 0, Facts(before, d).value)] && s.freezes == []
    ensures
      var es := [Publish(after)] + (Second(0) + [Commit(0, 2)]);
      && AllFresh(s, es)
      && Run(s, es).freezes == [Freeze(
           QuoteIn(after, d), Facts(before, d).value, Facts(after, d).value, after.capacity[d.target], d, 0, 1)]
  {
    hide Run, AllFresh, Facts, QuoteFor;
    RunInParts(s, [Publish(after)], Second(0) + [Commit(0, 2)]);
    RunOne(s, Publish(after));
    var t := s.(worlds := [before, after]);
    assert Step(s, Publish(after)) == t by {
      assert s.worlds + [after] == [before, after];
    }
    RunInParts(t, Second(0), [Commit(0, 2)]);
    SecondAlone(t, 0, 1, d, 0, Facts(before, d).value);
    RunOne(Run(t, Second(0)), Commit(0, 2));
  }

  lemma {:induction false} QuotesCost(w: World, d: Draft)
    requires Sellable(w, d)
    ensures Facts(w, d).value.Valid()
    ensures QuoteIn(w, d).totalCost == PricePerMessage(Facts(w, d).value) * QuoteIn(w, d).audience
  {
  }

  /** Two writes with one revision are enough to break the rest: one draft is paid for, another one is stored. */
  lemma {:induction false} RepeatedRevisionStoresAnotherDraft(paid: Draft, stored: Draft, w: World)
    requires Sellable(w, paid) && paid.pages != stored.pages
    ensures
      var last := [Save(1, stored, 1), Commit(0, 2)];
      var es := [Begin(0, true), Begin(1, false)] + (First(0, paid, 1) + (Second(0) + last));
      var s := Run(Idle(Row(paid, true, 0), w), es);
      |s.freezes| == 1 && s.freezes[0].draft == stored && !Honest(s.worlds, s.freezes[0])
  {
    hide Run, AllFresh, Facts, QuoteFor;
    var last := [Save(1, stored, 1), Commit(0, 2)];
    var s0 := Idle(Row(paid, true, 0), w);
    RunInParts(s0, [Begin(0, true), Begin(1, false)], First(0, paid, 1) + (Second(0) + last));
    RunTwo(s0, Begin(0, true), Begin(1, false));
    var s1 := s0.(requests := map[0 := Checked(true), 1 := Checked(false)]);
    RunInParts(s1, First(0, paid, 1), Second(0) + last);
    FirstAlone(s1, 0, paid, 1);
    var s2 := Run(s1, First(0, paid, 1));
    RunInParts(s2, Second(0), last);
    SecondAlone(s2, 0, 1, paid, 0, Facts(w, paid).value);
    var s3 := Run(s2, Second(0));
    RunTwo(s3, Save(1, stored, 1), Commit(0, 2));
    FactsAreOwn(w, paid);
  }

  lemma {:induction false} FactsAreOwn(w: World, d: Draft)
    requires Facts(w, d).Some?
    ensures Facts(w, d).value.pages == d.pages
  {
  }

  // ---------------------------------------------------------------- a write that was decided too early

  /** Once money is frozen the campaign is no longer a draft. */
  predicate Closed(s: State) {
    s.freezes != [] ==> !s.row.editable
  }

  /**
   A save whose status test passed before the freeze and whose write comes after it; or a rescheduling
   that writes back a row read before the freeze.
   */
  predicate LateWrite(s: State, e: Event) {
    s.freezes != [] && (
      || (e.Save? && e.p in s.requests && s.requests[e.p].Checked?)
      || (e.WriteBack? && e.p in s.requests && s.requests[e.p].Rescheduling? && s.requests[e.p].row.editable))
  }

  predicate NoLateWrite(s: State, es: seq<Event>)
    requires s.worlds != []
    decreases |es|
  {
    es == [] || (!LateWrite(s, es[0]) && NoLateWrite(Step(s, es[0]), es[1..]))
  }

  lemma {:induction false} StepCloses(s: State, e: Event)
    requires s.worlds != [] && Closed(s)
    ensures Closed(Step(s, e)) <==> !LateWrite(s, e)
    ensures s.freezes <= Step(s, e).freezes && |Step(s, e).freezes| <= |s.freezes| + 1
    ensures s.freezes != [] ==> Step(s, e).freezes == s.freezes
  {
  }

  /** In a run the finalized campaign is a draft again at some time iff there is a late write. */
  lemma {:induction false} ReopenedIff(s: State, es: seq<Event>)
    requires s.worlds != [] && Closed(s)
    ensures NoLateWrite(s, es) <==> forall k :: 0 <= k <= |es| ==> Closed(Run(s, es[..k]))
    decreases |es|
  {
    hide Closed, LateWrite, Step;
    if es == [] {
      assert forall k :: 0 <= k <= |es| ==> es[..k] == [];
    } else {
      var t := Step(s, es[0]);
      StepCloses(s, es[0]);
      if !LateWrite(s, es[0]) {
        ReopenedIff(t, es[1..]);
      }
      forall k | 0 <= k < |es|
        ensures Run(s, es[..k + 1]) == Run(t, es[1..][..k])
      {
        assert es[..k + 1][1..] == es[1..][..k] && es[..k + 1][0] == es[0];
      }
      assert es[..0] == [];
      if NoLateWrite(s, es) {
        forall k | 0 <= k <= |es|
          ensures Closed(Run(s, es[..k]))
        {
          assert k > 0 ==> Run(s, es[..k]) == Run(t, es[1..][..k - 1]);
        }
      }
      if forall k :: 0 <= k <= |es| ==> Closed(Run(s, es[..k])) {
        assert es[1..][..0] == [] && Closed(Run(s, es[..0 + 1])) && Run(t, []) == t;
        forall k | 0 <= k <= |es[1..]|
          ensures Closed(Run(t, es[1..][..k]))
        {
          assert Closed(Run(s, es[..k + 1]));
        }
      }
    }
  }

  /** Without late writes a campaign is frozen at most once. */
  lemma {:induction false} AtMostOneFreeze(s: State, es: seq<Event>)
    requires s.worlds != [] && Closed(s) && |s.freezes| <= 1 && NoLateWrite(s, es)
    ensures Closed(Run(s, es)) && |Run(s, es).freezes| <= 1
    decreases |es|
  {
    hide Step, Closed, LateWrite;
    if es != [] {
      StepCloses(s, es[0]);
      AtMostOneFreeze(Step(s, es[0]), es[1..]);
    }
  }

  /** What one finalization does after its status test. */
  function Full(p: nat, d: Draft, at: nat): seq<Event> {
    First(p, d, at) + (Second(p) + [Commit(p, at + 1)])
  }

  lemma {:induction false} FullAlone(s: State, p: nat, d: Draft, at: nat)
    requires s.worlds != [] && p in s.requests && s.requests[p] == Checked(true) && Sellable(Now(s), d)
    requires at > s.row.revision
    ensures
      var t := Run(s, Full(p, d, at));
      && |t.freezes| == |s.freezes| + 1 && t.row == Row(d, false, at + 1)
      && t.worlds == s.worlds && t.requests == s.requests - {p} && AllFresh(s, Full(p, d, at))
  {
    hide Run, AllFresh, Facts, QuoteFor;
    RunInParts(s, First(p, d, at), Second(p) + [Commit(p, at + 1)]);
    FirstAlone(s, p, d, at);
    var a := Run(s, First(p, d, at));
    RunInParts(a, Second(p), [Commit(p, at + 1)]);
    SecondAlone(a, p, at, d, |s.worlds| - 1, Facts(Now(s), d).value);
    var b := Run(a, Second(p));
    RunOne(b, Commit(p, at + 1));
    assert Step(b, Commit(p, at + 1)).requests == s.requests - {p};
  }

  /** A late save does reopen a campaign, and the same money is then frozen twice. */
  lemma {:induction false} LateSaveFreezesTwice(d: Draft, w: World)
    requires Sellable(w, d)
    ensures
      var es := [Begin(0, true), Begin(1, true)] + (Full(0, d, 1) + Full(1, d, 3));
      AllFresh(Idle(Row(d, true, 0), w), es) && |Run(Idle(Row(d, true, 0), w), es).freezes| == 2
  {
    hide Run, AllFresh, Facts, QuoteFor, Full;
    var s0 := Idle(Row(d, true, 0), w);
    RunInParts(s0, [Begin(0, true), Begin(1, true)], Full(0, d, 1) + Full(1, d, 3));
    RunTwo(s0, Begin(0, true), Begin(1, true));
    var s1 := s0.(requests := map[0 := Checked(true), 1 := Checked(true)]);
    RunInParts(s1, Full(0, d, 1), Full(1, d, 3));
    FullAlone(s1, 0, d, 1);
    var s2 := Run(s1, Full(0, d, 1));
    FullAlone(s2, 1, d, 3);
  }

  /** And so does a late rescheduling: the row it read as a draft is written back over the finalized one. */
  lemma {:induction false} LateRescheduleFreezesTwice(d: Draft, w: World)
    requires Sellable(w, d)
    ensures
      var es := [Begin(0, true), Peek(1)] + (Full(0, d, 1) + ([WriteBack(1, 3), Begin(0, true)] + Full(0, d, 4)));
      AllFresh(Idle(Row(d, true, 0), w), es) && |Run(Idle(Row(d, true, 0), w), es).freezes| == 2
  {
    hide Run, AllFresh, Facts, QuoteFor, Full;
    var s0 := Idle(Row(d, true, 0), w);
    var late := [WriteBack(1, 3), Begin(0, true)];
    RunInParts(s0, [Begin(0, true), Peek(1)], Full(0, d, 1) + (late + Full(0, d, 4)));
    RunTwo(s0, Begin(0, true), Peek(1));
    var s1 := s0.(requests := map[0 := Checked(true), 1 := Rescheduling(s0.row)]);
    RunInParts(s1, Full(0, d, 1), late + Full(0, d, 4));
    FullAlone(s1, 0, d, 1);
    var s2 := Run(s1, Full(0, d, 1));
    RunInParts(s2, late, Full(0, d, 4));
    RunTwo(s2, WriteBack(1, 3), Begin(0, true));
    FullAlone(Step(Step(s2, WriteBack(1, 3)), Begin(0, true)), 0, d, 4);
  }
}
