/**
 Short-link tokens: fixed-width base-36 numerals, and the allocator that hands them out in order
 while skipping tokens that older links already occupy.
 */
module ShortLinkUids {

  const WIDTH: nat := 6
  const CAPACITY: nat := 36 * 36 * 36 * 36 * 36 * 36
  const DIGITS := "0123456789abcdefghijklmnopqrstuvwxyz"
  const COLLISION_SCAN_FLOOR: nat := 4096

  datatype Result<+T> = Ok(value: T) | Negative | Exhausted | InvalidState

  // ---------------------------------------------------------------- the numeral

  function Power(w: nat): (p: nat)
    ensures p > 0
  {
    if w == 0 then 1 else 36 * Power(w - 1)
  }

  function DigitOf(d: nat): char
    requires d < 36
  {
    DIGITS[d]
  }

  /** `v` in base 36, most significant digit first, padded with zeros to width `w`. */
  function Numeral(v: nat, w: nat): (s: string)
    requires v < Power(w)
    ensures |s| == w
  {
    if w == 0 then "" else Numeral(v / 36, w - 1) + [DigitOf(v % 36)]
  }

  function Uid(v: nat): (s: string)
    requires v < CAPACITY
    ensures |s| == WIDTH
  {
    CapacityIsPower();
    Numeral(v, WIDTH)
  }

  lemma {:induction false} CapacityIsPower()
    ensures Power(WIDTH) == CAPACITY
  {
  }

  /** The number a digit stands for. */
  function DigitValue(c: char): (d: nat) {
    if '0' <= c <= '9' then (c - '0') as int
    else if 'a' <= c <= 'z' then 10 + (c - 'a') as int
    else 0
  }

  function ValueOf(s: string): nat {
    if s == "" then 0 else 36 * ValueOf(s[..|s| - 1]) + DigitValue(s[|s| - 1])
  }

  lemma {:induction false} DigitRoundTrip(d: nat)
    requires d < 36
    ensures DigitValue(DigitOf(d)) == d
  {
  }

  lemma {:induction false} NumeralRoundTrip(v: nat, w: nat)
    requires v < Power(w)
    ensures ValueOf(Numeral(v, w)) == v
  {
    hide DigitValue, DigitOf;
    if w > 0 {
      DropDigit(v, w);
      hide Power, ValueOf;
      DigitRoundTrip(v % 36);
      NumeralRoundTrip(v / 36, w - 1);
      ValueAppend(Numeral(v / 36, w - 1), DigitOf(v % 36));
    } else {
      assert ValueOf("") == 0;
    }
  }

  lemma {:induction false} DropDigit(v: nat, w: nat)
    requires w > 0 && v < Power(w)
    ensures v / 36 < Power(w - 1) && v == 36 * (v / 36) + v % 36
  {
  }

  lemma {:induction false} ValueAppend(s: string, c: char)
    ensures ValueOf(s + [c]) == 36 * ValueOf(s) + DigitValue(c)
  {
  }

  /** Reading a token back gives its number, so no two numbers share a token. */
  lemma {:induction false} UidRoundTrip(v: nat)
    requires v < CAPACITY
    ensures ValueOf(Uid(v)) == v
  {
    CapacityIsPower();
    NumeralRoundTrip(v, WIDTH);
  }

  lemma {:induction false} UidIsInjective(v: nat, w: nat)
    requires v < CAPACITY && w < CAPACITY && Uid(v) == Uid(w)
    ensures v == w
  {
    UidRoundTrip(v);
    UidRoundTrip(w);
  }

  function Zeros(n: nat): (s: string)
    ensures |s| == n
  {
    seq(n, _ => '0')
  }

  lemma {:induction false} ZeroNumeral(w: nat)
    ensures Power(w) > 0 && Numeral(0, w) == Zeros(w)
  {
    if w > 0 {
      ZeroNumeral(w - 1);
    }
  }

  function Reversed(s: string): (r: string)
    ensures |r| == |s|
  {
    if s == "" then "" else Reversed(s[1..]) + [s[0]]
  }

  lemma {:induction false} ReversedAppend(s: string, c: char)
    ensures Reversed(s + [c]) == [c] + Reversed(s)
  {
    if s == "" {
      assert (s + [c])[1..] == "";
    } else {
      assert (s + [c])[1..] == s[1..] + [c];
      ReversedAppend(s[1..], c);
    }
  }

  lemma {:induction false} ReversedAt(s: string, k: nat)
    requires k < |s|
    ensures Reversed(s)[k] == s[|s| - 1 - k]
  {
    if k < |s| - 1 {
      ReversedAt(s[1..], k);
    }
  }

  /** Swaps the first `len` characters end for end. */
  method ReversePrefix(buf: array<char>, len: nat)
    requires len <= buf.Length
    modifies buf
    ensures buf[..len] == Reversed(old(buf[..len]))
  {
    var left, right := 0, len - 1;
    while left < right
      invariant 0 <= left <= len && right == len - 1 - left && left <= right + 1
      invariant forall k :: 0 <= k < left ==> buf[k] == old(buf[len - 1 - k]) && buf[len - 1 - k] == old(buf[k])
      invariant forall k :: left <= k <= right ==> buf[k] == old(buf[k])
      decreases right - left
    {
      buf[left], buf[right] := buf[right], buf[left];
      left, right := left + 1, right - 1;
    }
    ghost var was := old(buf[..len]);
    forall k | 0 <= k < len
      ensures buf[..len][k] == Reversed(was)[k]
    {
      ReversedAt(was, k);
    }
  }

  lemma {:induction false} DigitMoves(v: nat, w: nat, tail: string)
    requires 0 < v < Power(w)
    ensures w > 0 && v / 36 < Power(w - 1)
    ensures Numeral(v, w) + Reversed(tail) == Numeral(v / 36, w - 1) + Reversed(tail + [DigitOf(v % 36)])
  {
    ReversedAppend(tail, DigitOf(v % 36));
  }

  lemma {:induction false} AllDigitsMoved(w: nat, tail: string)
    ensures Power(w) > 0 && Numeral(0, w) + Reversed(tail) == Zeros(w) + Reversed(tail)
  {
    ZeroNumeral(w);
  }

  lemma {:induction false} NoDigitMoved(value: nat, w: nat)
    requires value < Power(w)
    ensures Numeral(value, w) == Numeral(value, w) + Reversed("")
  {
  }

  /** The digits of a number, least significant first, in a buffer of the given width. */
  method CollectDigits(value: nat, w: nat) returns (buf: array<char>, len: nat)
    requires value < Power(w)
    ensures fresh(buf) && len <= w == buf.Length
    ensures Numeral(value, w) == Zeros(w - len) + Reversed(buf[..len])
  {
    hide *;
    buf := new char[w](_ => '0');
    var v: nat := value;
    len := 0;
    NoDigitMoved(value, w);
    assert buf[..0] == "";
    while v > 0
      invariant len <= w && v < Power(w - len)
      invariant Numeral(value, w) == Numeral(v, w - len) + Reversed(buf[..len])
    {
      DigitMoves(v, w - len, buf[..len]);
      ghost var tail := buf[..len];
      buf[len] := DigitOf(v % 36);
      assert buf[..len + 1] == tail + [DigitOf(v % 36)];
      v := v / 36;
      len := len + 1;
    }
    AllDigitsMoved(w - len, buf[..len]);
  }

  /** Digits collected in a buffer, reversed in place, padded on the left. */
  method FormatShortLinkUID(value: nat) returns (r: Result<string>)
    ensures r == if value >= CAPACITY then Exhausted else Ok(Uid(value))
  {
    if value >= CAPACITY { return Exhausted; }
    if value == 0 {
      CapacityIsPower();
      ZeroNumeral(WIDTH);
      return Ok(Zeros(WIDTH));
    }
    CapacityIsPower();
    hide Numeral, Power, Reversed, Zeros;
    var buf, len := CollectDigits(value, WIDTH);
    ReversePrefix(buf, len);
    return Ok(Zeros(WIDTH - len) + buf[..len]);
  }

  // ---------------------------------------------------------------- the allocator

  predicate Occupied(taken: set<string>, v: nat) {
    v < CAPACITY && Uid(v) in taken
  }

  datatype Reservation = Reserved(values: seq<nat>, next: nat) | OutOfTokens

  /** One value at a time: take it if it is free, until `count` have been taken. */
  function Scan(taken: set<string>, v: nat, count: nat): (r: Reservation)
    ensures r.Reserved? ==> |r.values| == count && forall i :: 0 <= i < count ==> r.values[i] < CAPACITY
    decreases CAPACITY - v
  {
    if count == 0 then Reserved([], v)
    else if v >= CAPACITY then OutOfTokens
    else if Occupied(taken, v) then Scan(taken, v + 1, count)
    else Prefixed([v], Scan(taken, v + 1, count - 1))
  }

  function Prefixed(vs: seq<nat>, r: Reservation): Reservation {
    if r.Reserved? then Reserved(vs + r.values, r.next) else OutOfTokens
  }

  /** The free values from `lo` up to `hi`, in order. */
  function FreeIn(taken: set<string>, lo: nat, hi: nat): (vs: seq<nat>)
    requires lo <= hi
    ensures forall x :: x in vs <==> lo <= x < hi && !Occupied(taken, x)
    decreases hi - lo
  {
    if lo == hi then []
    else if Occupied(taken, lo) then FreeIn(taken, lo + 1, hi)
    else [lo] + FreeIn(taken, lo + 1, hi)
  }

  function OccupiedCount(taken: set<string>, lo: nat, hi: nat): nat
    requires lo <= hi
    decreases hi - lo
  {
    if lo == hi then 0 else (if Occupied(taken, lo) then 1 else 0) + OccupiedCount(taken, lo + 1, hi)
  }

  /**
   A reservation is all the free values between the counter's old and new positions, so nothing free
   is skipped; the counter moves by the number of tokens taken plus the occupied ones it passed; and
   it fails exactly when fewer free tokens are left than asked for.
   */
  lemma {:induction false} ScanTakesTheFirstFree(taken: set<string>, v: nat, count: nat)
    requires v <= CAPACITY
    ensures Scan(taken, v, count).OutOfTokens? <==> |FreeIn(taken, v, CAPACITY)| < count
    ensures
      var r := Scan(taken, v, count);
      r.Reserved? ==>
        && v <= r.next <= CAPACITY
        && r.values == FreeIn(taken, v, r.next)
        && r.next - v == count + OccupiedCount(taken, v, r.next)
    decreases CAPACITY - v
  {
    if count != 0 && v < CAPACITY {
      ScanTakesTheFirstFree(taken, v + 1, if Occupied(taken, v) then count else count - 1);
    }
  }

  /**
   A reservation succeeds and advances the counter by exactly the rows created iff that many tokens are
   left and no older token lies among the next ones.
   */
  lemma {:induction false} AdvanceEqualsRowsIff(taken: set<string>, v: nat, count: nat)
    requires v <= CAPACITY
    ensures
      var r := Scan(taken, v, count);
      r.Reserved? && r.next == v + count <==>
        v + count <= CAPACITY && forall x :: v <= x < v + count ==> !Occupied(taken, x)
    decreases count
  {
    ScanOnce(taken, v, count);
    hide Scan, Occupied;
    if count > 0 && v < CAPACITY {
      if Occupied(taken, v) {
        ScanTakesTheFirstFree(taken, v + 1, count);
      } else {
        AdvanceEqualsRowsIff(taken, v + 1, count - 1);
      }
    }
  }

  /** The scan's next move. */
  lemma {:induction false} ScanOnce(taken: set<string>, v: nat, count: nat)
    ensures
      Scan(taken, v, count) ==
      if count == 0 then Reserved([], v)
      else if v >= CAPACITY then OutOfTokens
      else if Occupied(taken, v) then Scan(taken, v + 1, count)
      else Prefixed([v], Scan(taken, v + 1, count - 1))
  {
  }

  /** The counter stops right behind the last token it took. */
  lemma {:induction false} ScanStopsBehindItsLast(taken: set<string>, v: nat, count: nat)
    requires count > 0 && Scan(taken, v, count).Reserved?
    ensures Scan(taken, v, count).next > v && Scan(taken, v, count).values[count - 1] == Scan(taken, v, count).next - 1
    decreases CAPACITY - v
  {
    if Occupied(taken, v) {
      ScanStopsBehindItsLast(taken, v + 1, count);
    } else if count > 1 {
      ScanStopsBehindItsLast(taken, v + 1, count - 1);
    }
  }

  lemma {:induction false} NoneOccupiedIff(taken: set<string>, lo: nat, hi: nat)
    requires lo <= hi
    ensures OccupiedCount(taken, lo, hi) == 0 <==> forall x :: lo <= x < hi ==> !Occupied(taken, x)
    decreases hi - lo
  {
    if lo < hi {
      NoneOccupiedIff(taken, lo + 1, hi);
    }
  }

  /** An occupied token makes the counter move further than the rows it creates. */
  lemma {:induction false} OccupiedTokenIsPassed()
    ensures Scan({Uid(0)}, 0, 1) == Reserved([1], 2)
  {
    UidRoundTrip(0);
    UidRoundTrip(1);
    assert Occupied({Uid(0)}, 0) && !Occupied({Uid(0)}, 1);
    assert Scan({Uid(0)}, 2, 0) == Reserved([], 2);
    assert Scan({Uid(0)}, 1, 1) == Reserved([1], 2);
  }

  function Uids(vs: seq<nat>): (codes: seq<string>)
    requires forall i :: 0 <= i < |vs| ==> vs[i] < CAPACITY
    ensures |codes| == |vs|
  {
    seq(|vs|, i requires 0 <= i < |vs| => Uid(vs[i]))
  }

  /** The allocator row: the next value to inspect. */
  class Allocator {
    var next: int

    constructor (start: int)
      ensures next == start
    {
      next := start;
    }

    /**
     Reserves tokens window by window: the candidates of a window are compared with the stored links
     in one query. It returns what the one-at-a-time scan returns, and only a success moves the row.
     */
    method ReserveSequentialUIDs(count: int, taken: set<string>) returns (r: Result<seq<string>>)
      modifies this
      ensures count < 0 ==> r == Negative
      ensures count == 0 ==> r == Ok([])
      ensures count > 0 && old(next) < 0 ==> r == InvalidState
      ensures count > 0 && old(next) >= 0 ==>
        match Scan(taken, old(next), count)
        case OutOfTokens => r == Exhausted
        case Reserved(values, n) => r == Ok(Uids(values)) && next == n
      ensures !(r.Ok? && count > 0) ==> next == old(next)
    {
      hide Scan, Prefixed, Uid;
      if count < 0 { return Negative; }
      if count == 0 { return Ok([]); }
      if next < 0 { return InvalidState; }
      var nextValue: nat := next;
      if nextValue >= CAPACITY {
        ScanEnds(taken, nextValue, count, []);
        PrefixedNothing(Scan(taken, nextValue, count));
        return Exhausted;
      }
      ghost var goal := Scan(taken, nextValue, count);
      PrefixedNothing(goal);
      var codes: seq<string> := [];
      ghost var values: seq<nat> := [];
      while |codes| < count
        invariant |values| == |codes| <= count && nextValue <= CAPACITY
        invariant forall i :: 0 <= i < |values| ==> values[i] < CAPACITY
        invariant codes == Uids(values)
        invariant goal == Prefixed(values, Scan(taken, nextValue, count - |codes|))
        invariant next == old(next)
        decreases CAPACITY - nextValue
      {
        var remainingCapacity := CAPACITY - nextValue;
        if remainingCapacity == 0 {
          ScanEnds(taken, nextValue, count - |codes|, values);
          return Exhausted;
        }
        var windowSize := count - |codes|;
        if windowSize < COLLISION_SCAN_FLOOR { windowSize := COLLISION_SCAN_FLOOR; }
        if windowSize > remainingCapacity { windowSize := remainingCapacity; }
        ghost var before := nextValue;
        var index := 0;
        while index < windowSize && |codes| < count
          invariant 0 <= index <= windowSize && windowSize <= CAPACITY - nextValue
          invariant |values| == |codes| <= count
          invariant forall i :: 0 <= i < |values| ==> values[i] < CAPACITY
          invariant codes == Uids(values)
          invariant goal == Prefixed(values, Scan(taken, nextValue + index, count - |codes|))
          invariant |codes| == count ==> index > 0
          invariant next == old(next)
          decreases windowSize - index
        {
          var code := Uid(nextValue + index);
          if code !in taken {
            ScanTakes(taken, nextValue + index, count - |codes|, values);
            codes := codes + [code];
            values := values + [nextValue + index];
          } else {
            ScanSkips(taken, nextValue + index, count - |codes|);
          }
          index := index + 1;
        }
        nextValue := nextValue + index;
      }
      next := nextValue;
      ScanEnds(taken, nextValue, 0, values);
      return Ok(codes);
    }
  }

  lemma {:induction false} PrefixedNothing(r: Reservation)
    ensures Prefixed([], r) == r
  {
  }

  lemma {:induction false} ScanTakes(taken: set<string>, v: nat, count: nat, vs: seq<nat>)
    requires count > 0 && v < CAPACITY && Uid(v) !in taken
    ensures Prefixed(vs, Scan(taken, v, count)) == Prefixed(vs + [v], Scan(taken, v + 1, count - 1))
  {
  }

  lemma {:induction false} ScanSkips(taken: set<string>, v: nat, count: nat)
    requires count > 0 && v < CAPACITY && Uid(v) in taken
    ensures Scan(taken, v, count) == Scan(taken, v + 1, count)
  {
  }

  lemma {:induction false} ScanEnds(taken: set<string>, v: nat, count: nat, vs: seq<nat>)
    ensures count == 0 ==> Prefixed(vs, Scan(taken, v, count)) == Reserved(vs, v)
    ensures count > 0 && v >= CAPACITY ==> Prefixed(vs, Scan(taken, v, count)) == OutOfTokens
  {
  }
}
