/**
 The byte strings hashed into allocation keys. The bot's is a list of length-delimited fields and is
 uniquely decodable; the campaign test's joins four fields with NUL bytes, and is unambiguous only as
 far as its fields contain none. A character stands for one byte.
 */
module AllocationKey {
  import opened Wrappers

  datatype Item = Item(phone: string, adLink: Option<string>)

  datatype Request = Nil | Request(campaign: nat, domain: string, items: seq<Item>)

  // ---------------------------------------------------------------- decimal numerals

  function Digit(d: nat): (c: char)
    requires d < 10
    ensures '0' <= c <= '9'
  {
    '0' + d as char
  }

  function Decimal(n: nat): (s: string)
    ensures |s| > 0 && forall i :: 0 <= i < |s| ==> '0' <= s[i] <= '9'
  {
    if n < 10 then [Digit(n)] else Decimal(n / 10) + [Digit(n % 10)]
  }

  function Number(s: string): nat {
    if s == "" then 0
    else
      var last := s[|s| - 1];
      10 * Number(s[..|s| - 1]) + if '0' <= last <= '9' then (last - '0') as nat else 0
  }

  lemma {:induction false} DecimalRoundTrip(n: nat)
    ensures Number(Decimal(n)) == n
  {
    if n >= 10 {
      DecimalRoundTrip(n / 10);
      var s := Decimal(n);
      assert s[..|s| - 1] == Decimal(n / 10);
    } else {
      assert Decimal(n)[..0] == "";
    }
  }

  // ---------------------------------------------------------------- one field

  /** Decimal length, colon, the bytes, bar. */
  function Field(value: string): string {
    Decimal(|value|) + ":" + value + "|"
  }

  /** The text before the first `c`, and the text after it. */
  function Split(s: string, c: char): Option<(string, string)> {
    if s == "" then None
    else if s[0] == c then Some(("", s[1..]))
    else
      match Split(s[1..], c)
      case None => None
      case Some((a, b)) => Some(([s[0]] + a, b))
  }

  lemma {:induction false} SplitAtFirst(a: string, c: char, b: string)
    requires c !in a
    ensures Split(a + [c] + b, c) == Some((a, b))
  {
    var s := a + [c] + b;
    if a == "" {
      assert s[1..] == b;
    } else {
      assert s[1..] == a[1..] + [c] + b;
      SplitAtFirst(a[1..], c, b);
      assert [s[0]] + a[1..] == a;
    }
  }

  function ParseField(s: string): Option<(string, string)> {
    match Split(s, ':')
    case None => None
    case Some((digits, rest)) =>
      var n := Number(digits);
      if n < |rest| && rest[n] == '|' then Some((rest[..n], rest[n + 1..])) else None
  }

  /** A field is found whatever follows it, even when it contains digits, colons or bars itself. */
  lemma {:induction false} FieldRoundTrip(value: string, rest: string)
    ensures ParseField(Field(value) + rest) == Some((value, rest))
  {
    var digits := Decimal(|value|);
    DecimalRoundTrip(|value|);
    SplitAtFirst(digits, ':', value + "|" + rest);
    assert Field(value) + rest == digits + [':'] + (value + "|" + rest);
    var body := value + "|" + rest;
    assert body[..|value|] == value && body[|value| + 1..] == rest;
  }

  // ---------------------------------------------------------------- the whole request

  function EncodeItem(item: Item): string {
    Field(item.phone) + match item.adLink case None => Field("nil") case Some(link) => Field("value") + Field(link)
  }

  function EncodeItems(items: seq<Item>): string {
    if items == [] then "" else EncodeItem(items[0]) + EncodeItems(items[1..])
  }

  function Encode(r: Request): string {
    match r
    case Nil => Field("nil")
    case Request(campaign, domain, items) =>
      Field(Decimal(campaign)) + (Field(domain) + (Field(Decimal(|items|)) + EncodeItems(items)))
  }

  function ParseItem(s: string): Option<(Item, string)> {
    match ParseField(s)
    case None => None
    case Some((phone, s1)) =>
      match ParseField(s1)
      case None => None
      case Some((tag, s2)) =>
        if tag == "nil" then Some((Item(phone, None), s2))
        else
          match ParseField(s2)
          case None => None
          case Some((link, s3)) => Some((Item(phone, Some(link)), s3))
  }

  function ParseItems(s: string, n: nat): Option<seq<Item>>
    decreases n
  {
    if n == 0 then if s == "" then Some([]) else None
    else
      match ParseItem(s)
      case None => None
      case Some((item, rest)) =>
        match ParseItems(rest, n - 1)
        case None => None
        case Some(items) => Some([item] + items)
  }

  function Decode(s: string): Option<Request> {
    match ParseField(s)
    case None => None
    case Some((first, s1)) =>
      if first == "nil" then if s1 == "" then Some(Nil) else None
      else
        match ParseField(s1)
        case None => None
        case Some((domain, s2)) =>
          match ParseField(s2)
          case None => None
          case Some((count, s3)) =>
            match ParseItems(s3, Number(count))
            case None => None
            case Some(items) => Some(Request(Number(first), domain, items))
  }

  lemma {:induction false} ItemRoundTrip(item: Item, rest: string)
    ensures ParseItem(EncodeItem(item) + rest) == Some((item, rest))
  {
    hide ParseField, Field;
    match item.adLink {
      case None =>
        assert EncodeItem(item) + rest == Field(item.phone) + (Field("nil") + rest);
        FieldRoundTrip(item.phone, Field("nil") + rest);
        FieldRoundTrip("nil", rest);
      case Some(link) =>
        assert EncodeItem(item) + rest == Field(item.phone) + (Field("value") + (Field(link) + rest));
        FieldRoundTrip(item.phone, Field("value") + (Field(link) + rest));
        FieldRoundTrip("value", Field(link) + rest);
        FieldRoundTrip(link, rest);
    }
  }

  lemma {:induction false} ItemsRoundTrip(items: seq<Item>)
    ensures ParseItems(EncodeItems(items), |items|) == Some(items)
  {
    hide ParseItem, EncodeItem;
    if items != [] {
      ItemRoundTrip(items[0], EncodeItems(items[1..]));
      ItemsRoundTrip(items[1..]);
      assert [items[0]] + items[1..] == items;
    }
  }

  /** Every request is read back from its key's byte string. */
  lemma {:induction false} RequestRoundTrip(r: Request)
    ensures Decode(Encode(r)) == Some(r)
  {
    hide ParseField, Field, ParseItems, EncodeItems, Decimal, Number;
    match r {
      case Nil =>
        FieldRoundTrip("nil", "");
        assert Field("nil") + "" == Field("nil");
      case Request(campaign, domain, items) =>
        FieldRoundTrip(Decimal(campaign), Field(domain) + (Field(Decimal(|items|)) + EncodeItems(items)));
        FieldRoundTrip(domain, Field(Decimal(|items|)) + EncodeItems(items));
        FieldRoundTrip(Decimal(|items|), EncodeItems(items));
        DecimalRoundTrip(campaign);
        DecimalRoundTrip(|items|);
        assert Decimal(campaign) != "nil" by { assert Decimal(campaign)[0] != 'n'; }
        ItemsRoundTrip(items);
    }
  }

  /** Two requests have one key only if they are the same: same campaign, domain and items in order. */
  lemma {:induction false} EncodeIsInjective(r: Request, q: Request)
    requires Encode(r) == Encode(q)
    ensures r == q
  {
    RequestRoundTrip(r);
    RequestRoundTrip(q);
  }

  /** The running hash: the bytes written so far. */
  class Hash {
    var written: string

    constructor ()
      ensures written == ""
    {
      written := "";
    }

    method WriteField(value: string)
      modifies this
      ensures written == old(written) + Field(value)
    {
      written := written + Decimal(|value|);
      written := written + ":";
      written := written + value;
      written := written + "|";
    }

    method WriteItem(item: Item)
      modifies this
      ensures written == old(written) + EncodeItem(item)
    {
      hide Field;
      WriteField(item.phone);
      if item.adLink.None? {
        WriteField("nil");
        return;
      }
      WriteField("value");
      WriteField(item.adLink.value);
    }
  }

  lemma {:induction false} EncodeItemsAppend(items: seq<Item>, item: Item)
    ensures EncodeItems(items + [item]) == EncodeItems(items) + EncodeItem(item)
  {
    hide EncodeItem;
    if items == [] {
      assert (items + [item])[1..] == [];
    } else {
      assert (items + [item])[1..] == items[1..] + [item];
      EncodeItemsAppend(items[1..], item);
    }
  }

  lemma {:induction false} EncodeItemsOfNone()
    ensures EncodeItems([]) == ""
  {
  }

  /** Fields are written in request order; an absent link is a field of its own. */
  method ShortLinkAllocationKey(r: Request) returns (bytes: string)
    ensures bytes == Encode(r)
  {
    hide Field, Decimal, EncodeItem, EncodeItems;
    EncodeItemsOfNone();
    var hash := new Hash();
    if r.Nil? {
      hash.WriteField("nil");
      return hash.written;
    }
    hash.WriteField(Decimal(r.campaign));
    hash.WriteField(r.domain);
    hash.WriteField(Decimal(|r.items|));
    ghost var head := hash.written;
    for i := 0 to |r.items|
      invariant hash.written == head + EncodeItems(r.items[..i])
    {
      hash.WriteItem(r.items[i]);
      EncodeItemsAppend(r.items[..i], r.items[i]);
      assert r.items[..i + 1] == r.items[..i] + [r.items[i]];
    }
    assert r.items[..|r.items|] == r.items;
    return hash.written;
  }

  // ---------------------------------------------------------------- the campaign test's key

  const NUL: char := '\0'

  datatype TestRequest = TestRequest(campaign: nat, recipient: string, longLink: string, domain: string)

  function TestPayload(t: TestRequest): string {
    Decimal(t.campaign) + [NUL] + (t.recipient + [NUL] + (t.longLink + [NUL] + t.domain))
  }

  /** Recipients are normalized phone numbers, so only the split between link and domain can be lost. */
  lemma {:induction false} TestPayloadCollidesIff(t: TestRequest, u: TestRequest)
    requires NUL !in t.recipient && NUL !in u.recipient
    ensures
      TestPayload(t) == TestPayload(u) <==>
      t.campaign == u.campaign && t.recipient == u.recipient &&
        t.longLink + [NUL] + t.domain == u.longLink + [NUL] + u.domain
  {
    hide Decimal, Number;
    if TestPayload(t) == TestPayload(u) {
      SplitAtFirst(Decimal(t.campaign), NUL, t.recipient + [NUL] + (t.longLink + [NUL] + t.domain));
      SplitAtFirst(Decimal(u.campaign), NUL, u.recipient + [NUL] + (u.longLink + [NUL] + u.domain));
      DecimalRoundTrip(t.campaign);
      DecimalRoundTrip(u.campaign);
      SplitAtFirst(t.recipient, NUL, t.longLink + [NUL] + t.domain);
      SplitAtFirst(u.recipient, NUL, u.longLink + [NUL] + u.domain);
    }
  }

  /** Links without NUL bytes make the test key injective. */
  lemma {:induction false} TestPayloadIsInjectiveOnCleanLinks(t: TestRequest, u: TestRequest)
    requires NUL !in t.recipient && NUL !in u.recipient && NUL !in t.longLink && NUL !in u.longLink
    requires TestPayload(t) == TestPayload(u)
    ensures t == u
  {
    TestPayloadCollidesIff(t, u);
    SplitAtFirst(t.longLink, NUL, t.domain);
    SplitAtFirst(u.longLink, NUL, u.domain);
  }

  /** With a NUL byte in a link two requests would share a key; links come out of the database, which stores none. */
  lemma {:induction false} NulInLinkCollides(campaign: nat, recipient: string)
    ensures
      var t := TestRequest(campaign, recipient, ['a', NUL, 'b'], "c");
      var u := TestRequest(campaign, recipient, "a", ['b', NUL, 'c']);
      t != u && TestPayload(t) == TestPayload(u)
  {
  }
}
