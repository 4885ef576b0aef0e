/**
 Price of one message, the quote taken when a campaign is finalized, and the price that the
 refund job rebuilds later from the metadata stored with the budget freeze.

 Prices are 64-bit unsigned integers in the program, so every product and sum wraps; the price
 factors are floating-point numbers, modelled as reals (exact below 2^53).
 */
module CampaignPricing {
  import opened Numbers
  import opened Wrappers

  const TWO_64: nat := 0x1_0000_0000_0000_0000
  const MAX_UINT64: nat := TWO_64 - 1
  const DEFAULT_FACTOR: real := 1.0

  type Uint64 = n: nat | n <= MAX_UINT64

  function Wrap(n: nat): (w: Uint64) {
    n % TWO_64
  }

  /** Truncation of a non-negative float to an unsigned integer. */
  function Truncate(x: real): (n: nat)
    requires x >= 0.0
  {
    x.Floor
  }

  /** The facts recorded in the freeze transaction. */
  datatype PriceFacts = PriceFacts(
    sms: bool,
    base: Uint64,
    page: Uint64,
    pages: Uint64,
    lineFactor: real,
    segmentFactor: real)
  {
    predicate Valid() {
      pages >= 1 && lineFactor >= 0.0 && segmentFactor > 0.0
    }
  }

  /** Number of message parts: never a part too many, never one too few. */
  function CalculateParts(sms: bool, contentEmpty: bool, charCount: nat): (parts: nat)
    ensures parts == 1 <==> !sms || contentEmpty || charCount <= 70
    ensures parts != 1 ==> 66 * (parts - 1) < charCount <= 66 * parts
  {
    if !sms then 1
    else if contentEmpty then 1
    else if charCount <= 70 then 1
    else (charCount + 65) / 66
  }

  /** uint64 addition and multiplication, wrapping around. */
  function Add64(a: Uint64, b: Uint64): (c: Uint64) { Wrap(a + b) }

  function Mul64(a: Uint64, b: Uint64): (c: Uint64) { Wrap(a * b) }

  /** A float factor times an integer, truncated back to an integer. */
  function Scale(factor: real, n: Uint64): (c: Uint64)
    requires factor >= 0.0
  {
    Wrap(Truncate(factor * n as real))
  }

  function PricePerMessage(f: PriceFacts): (price: Uint64)
    requires f.Valid()
  {
    if f.sms then
      Add64(Mul64(f.base, Scale(f.lineFactor, f.pages)), Scale(f.segmentFactor, f.page))
    else
      Add64(f.base, Scale(f.segmentFactor, f.page))
  }

  /** The whole part of a factor times a number: no more than the product, and less than one below it. */
  predicate WholePart(factor: real, n: nat, p: nat) {
    p as real <= factor * n as real < p as real + 1.0
  }

  /** Every product has one whole part. */
  lemma {:induction false} WholePartExists(factor: real, n: nat) returns (p: nat)
    requires factor >= 0.0
    ensures WholePart(factor, n, p) && forall q: nat :: WholePart(factor, n, q) ==> q == p
  {
    p := (factor * n as real).Floor;
  }

  lemma {:induction false} ScaleIsWholePart(factor: real, n: Uint64, p: nat)
    requires factor >= 0.0 && WholePart(factor, n, p) && p <= MAX_UINT64
    ensures Scale(factor, n) == p
  {
    var exact := WholePartExists(factor, n);
    var product := factor * n as real;
    assert p <= product.Floor < p + 1;
    WrapIsSmall(p);
  }

  lemma {:induction false} WrapIsSmall(n: nat)
    ensures n <= MAX_UINT64 ==> Wrap(n) == n
  {
  }

  /**
   The price of a message, as long as nothing wraps: for an SMS the base price times the whole part of line
   factor times parts, otherwise the base price alone; plus the whole part of segment factor times page price.
   */
  lemma {:induction false} PriceIsBasePlusPage(f: PriceFacts, q: nat, p: nat)
    requires f.Valid() && WholePart(f.segmentFactor, f.page, p) && (f.sms ==> WholePart(f.lineFactor, f.pages, q))
    requires (if f.sms then f.base * q else f.base) + p <= MAX_UINT64 && (f.sms ==> q <= MAX_UINT64)
    ensures PricePerMessage(f) == (if f.sms then f.base * q else f.base) + p
  {
    ScaleIsWholePart(f.segmentFactor, f.page, p);
    if f.sms { ScaleIsWholePart(f.lineFactor, f.pages, q); }
    ChargeIsExact(f.base, q, p);
    hide Wrap, Scale, Add64, Mul64, WholePart;
  }

  lemma {:induction false} ChargeIsExact(base: Uint64, q: nat, p: nat)
    ensures q <= MAX_UINT64 && base * q + p <= MAX_UINT64 ==> Add64(Mul64(base, q), p) == base * q + p
    ensures base + p <= MAX_UINT64 ==> Add64(base, p) == base + p
  {
    assert base * q >= 0;
    WrapIsSmall(base * q);
    WrapIsSmall(base * q + p);
    WrapIsSmall(base + p);
    hide Wrap;
  }

  datatype Quote = Quote(audience: nat, totalCost: nat)

  /** Audience bought: the whole capacity, or as many messages as the budget pays for. */
  function TargetAudience(price: nat, capacity: nat, budget: Option<nat>): (n: nat)
    requires price > 0
    ensures n <= capacity
    ensures budget.Some? ==> price * n <= budget.value
    // maximal: one more message would exceed the capacity or the budget
    ensures n < capacity ==> budget.Some? && price * (n + 1) > budget.value
  {
    match budget
    case None => capacity
    case Some(b) =>
      var affordable := b / price;
      AffordableIsMaximal(price, b, affordable);
      if capacity <= affordable then
        MulMonotone(price, capacity, affordable);
        capacity
      else affordable
  }

  lemma {:induction false} AffordableIsMaximal(price: nat, b: nat, affordable: nat)
    requires price > 0 && affordable == b / price
    ensures price * affordable <= b < price * (affordable + 1)
  {
  }

  /** Cost of an audience, or nothing when it does not fit in 64 bits. */
  function CheckedCost(price: Uint64, audience: nat): (cost: Option<nat>)
    ensures cost.Some? <==> price * audience <= MAX_UINT64
    ensures cost.Some? ==> cost.value == price * audience
  {
    if audience != 0 && price > MAX_UINT64 / audience then
      OverflowGuardIsExact(price, audience);
      None
    else
      OverflowGuardIsExact(price, audience);
      Some(price * audience)
  }

  /** Dividing before multiplying detects exactly the products that overflow. */
  lemma {:induction false} OverflowGuardIsExact(a: nat, b: nat)
    ensures b != 0 ==> (a > MAX_UINT64 / b <==> a * b > MAX_UINT64)
  {
    if b != 0 {
      var most := MAX_UINT64 / b;
      AffordableIsMaximal(b, MAX_UINT64, most);
      assert a * b == b * a;
      hide *;
      if a > most {
        MulMonotone(b, most + 1, a);
      } else {
        MulMonotone(b, a, most);
      }
    }
  }

  /** The price tables consulted when the stored metadata has a zero price. */
  datatype PriceTable = PriceTable(base: Option<Uint64>, page: Option<Uint64>)

  /**
   The price the refund job rebuilds: zero prices are looked up again, a zero page count is
   recomputed (it never is zero) and a factor that is not positive falls back to 1.0.
   */
  function RebuildPrice(meta: Option<PriceFacts>, latest: PriceTable): (price: Option<Uint64>)
    requires meta.Some? ==> meta.value.Valid()
  {
    match meta
    case None => None
    case Some(f) =>
      var base := if f.base != 0 then Some(f.base) else latest.base;
      var page := if f.page != 0 then Some(f.page) else latest.page;
      if base.None? || base.value == 0 || page.None? || page.value == 0 then None
      else
        var line := if f.lineFactor > 0.0 then f.lineFactor else DEFAULT_FACTOR;
        var segment := if f.segmentFactor > 0.0 then f.segmentFactor else DEFAULT_FACTOR;
        if f.sms then
          Some(Add64(Mul64(base.value, Scale(line, f.pages)), Scale(segment, page.value)))
        else
          Some(Add64(base.value, Scale(segment, page.value)))
  }

  /**
   The rebuilt price in the same terms: a price of zero is the one in force now, a factor of zero counts as
   one, and there is no price without a base price and a page price.
   */
  lemma {:induction false} RebuiltPriceIsBasePlusPage(f: PriceFacts, latest: PriceTable, q: nat, p: nat)
    requires f.Valid()
    requires
      var page := if f.page > 0 then f.page else if latest.page.Some? then latest.page.value else 0;
      WholePart(f.segmentFactor, page, p)
    requires f.sms ==> WholePart(if f.lineFactor > 0.0 then f.lineFactor else 1.0, f.pages, q) && q <= MAX_UINT64
    ensures
      var base := if f.base > 0 then f.base else if latest.base.Some? then latest.base.value else 0;
      var page := if f.page > 0 then f.page else if latest.page.Some? then latest.page.value else 0;
      var price := (if f.sms then base * q else base) + p;
      var rebuilt := RebuildPrice(Some(f), latest);
      && (rebuilt.None? <==> base == 0 || page == 0)
      && (rebuilt.Some? && price <= MAX_UINT64 ==> rebuilt.value == price)
  {
    var base := if f.base > 0 then f.base else if latest.base.Some? then latest.base.value else 0;
    var page := if f.page > 0 then f.page else if latest.page.Some? then latest.page.value else 0;
    RebuiltFrom(f, latest);
    if base > 0 && page > 0 && (if f.sms then base * q else base) + p <= MAX_UINT64 {
      ScaleIsWholePart(f.segmentFactor, page, p);
      if f.sms { ScaleIsWholePart(if f.lineFactor > 0.0 then f.lineFactor else 1.0, f.pages, q); }
      ChargeIsExact(base, q, p);
    }
    hide RebuildPrice, Wrap, Scale, Add64, Mul64, WholePart;
  }

  lemma {:induction false} RebuiltFrom(f: PriceFacts, latest: PriceTable)
    requires f.Valid()
    ensures
      var base := if f.base > 0 then f.base else if latest.base.Some? then latest.base.value else 0;
      var page := if f.page > 0 then f.page else if latest.page.Some? then latest.page.value else 0;
      var line := if f.lineFactor > 0.0 then f.lineFactor else 1.0;
      RebuildPrice(Some(f), latest) ==
      if base == 0 || page == 0 then None
      else if f.sms then Some(Add64(Mul64(base, Scale(line, f.pages)), Scale(f.segmentFactor, page)))
      else Some(Add64(base, Scale(f.segmentFactor, page)))
  {
    hide Scale, Add64, Mul64;
  }

  /** Whatever the price tables say later, positive prices and factors are rebuilt exactly. */
  lemma {:induction false} RebuiltPriceIsThePriceCharged(f: PriceFacts, latest: PriceTable)
    requires f.Valid()
    requires f.base > 0 && f.page > 0 && (f.sms ==> f.lineFactor > 0.0)
    ensures RebuildPrice(Some(f), latest) == Some(PricePerMessage(f))
  {
  }

  /**
   Exactly when the rebuilt price is the price charged, with the price tables unchanged since
   finalization and no wrap-around in the base charge.
   */
  lemma {:induction false} RebuiltPriceIsExactIff(f: PriceFacts)
    requires f.Valid()
    requires f.base * f.pages <= MAX_UINT64
    ensures
      RebuildPrice(Some(f), PriceTable(Some(f.base), Some(f.page))) == Some(PricePerMessage(f))
      <==> f.base > 0 && f.page > 0 && (f.sms ==> f.lineFactor > 0.0)
  {
    var table := PriceTable(Some(f.base), Some(f.page));
    if f.base == 0 || f.page == 0 {
      assert RebuildPrice(Some(f), table) == None;
    } else if f.sms && f.lineFactor == 0.0 {
      FreeLineShiftsThePrice(f);
    } else {
      RebuiltPriceIsThePriceCharged(f, table);
    }
  }

  /** The charge used factor zero, the refund uses factor one: they differ by base * pages. */
  lemma {:induction false} FreeLineShiftsThePrice(f: PriceFacts)
    requires f.Valid() && f.sms && f.base > 0 && f.page > 0 && f.lineFactor == 0.0
    requires f.base * f.pages <= MAX_UINT64
    ensures RebuildPrice(Some(f), PriceTable(Some(f.base), Some(f.page))) != Some(PricePerMessage(f))
  {
    var s := Scale(f.segmentFactor, f.page);
    ScaleByZeroAndOne(f.pages);
    assert Scale(f.lineFactor, f.pages) == 0;
    assert PricePerMessage(f) == Add64(Mul64(f.base, 0), s) == Add64(0, s) == s by {
      WrapIsSmall(0);
      WrapIsSmall(s);
    }
    assert RebuildPrice(Some(f), PriceTable(Some(f.base), Some(f.page))) == Some(Add64(Mul64(f.base, f.pages), s));
    ShiftModuloChangesValue(s, f.base, f.pages);
  }

  lemma {:induction false} ScaleByZeroAndOne(n: Uint64)
    ensures Scale(0.0, n) == 0 && Scale(DEFAULT_FACTOR, n) == n
  {
  }

  lemma {:induction false} ShiftModuloChangesValue(s: Uint64, base: Uint64, pages: Uint64)
    requires base > 0 && pages >= 1 && base * pages <= MAX_UINT64
    ensures Add64(Mul64(base, pages), s) != s
  {
  }

  /** A free line number (factor 0) is refunded at a price that was never charged. */
  lemma {:induction false} FreeLineIsRefundedAtADifferentPrice()
    ensures
      var f := PriceFacts(true, 10, 20, 1, 0.0, 1.0);
      f.Valid() && PricePerMessage(f) == 20 &&
      RebuildPrice(Some(f), PriceTable(Some(10), Some(20))) == Some(30)
  {
  }
}
