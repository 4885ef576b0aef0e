/**
 The pacer in front of the language-model provider: callers reserve slots one interval apart under a
 mutex, sleep until their slot, and reserve again when a pause is in force. Times are nanoseconds.
 */
module RequestPacer {
  import opened Numbers

  const MINUTE: nat := 60_000_000_000

  function Max(a: nat, b: nat): nat {
    if a >= b then a else b
  }

  /** The interval for a rate; a rate that is not positive means no pacing at all. */
  function Interval(maxRequestsPerMinute: int): (interval: nat)
    ensures interval > 0 <==> maxRequestsPerMinute > 0
    ensures maxRequestsPerMinute > 60_000_000_000 ==> interval == 1
  {
    if maxRequestsPerMinute <= 0 then 0
    else if MINUTE / maxRequestsPerMinute <= 0 then 1
    else MINUTE / maxRequestsPerMinute
  }

  // ---------------------------------------------------------------- the critical sections

  class Pacer {
    const interval: nat
    var nextRequestAt: nat
    var pauseUntil: nat

    constructor (interval: nat)
      requires interval > 0
      ensures this.interval == interval && nextRequestAt == 0 && pauseUntil == 0
      ensures forall t0: nat :: Shows(Begin(interval, t0))
    {
      this.interval := interval;
      nextRequestAt, pauseUntil := 0, 0;
    }

    /** The pacer's fields are those of a state of the machine below. */
    ghost predicate Shows(s: State)
      reads this
    {
      interval == s.interval && nextRequestAt == s.next && pauseUntil == s.pauseUntil
    }

    /** First critical section: the next slot that is not in the past; an arrival's step. */
    method Reserve(now: nat) returns (requestAt: nat)
      modifies this`nextRequestAt
      ensures forall s: State, caller: nat ::
        old(Shows(s)) && caller !in s.waiting && s.clock <= now ==>
          Shows(Step(s, Arrive(caller, now))) && Step(s, Arrive(caller, now)).slots == s.slots + [requestAt]
      ensures requestAt == Max(now, old(nextRequestAt)) && nextRequestAt == requestAt + interval
    {
      requestAt := now;
      if nextRequestAt > requestAt {
        requestAt := nextRequestAt;
      }
      nextRequestAt := requestAt + interval;
    }

    /** Second critical section, after the sleep: go, or take a new slot after the pause; a waking caller's step. */
    method Recheck(now: nat) returns (go: bool, requestAt: nat)
      modifies this`nextRequestAt
      ensures forall s: State, caller: nat ::
        old(Shows(s)) && AtItsSlot(s, caller, now) ==>
          var r := Step(s, Wake(caller, now));
          Shows(r) && (go <==> caller !in r.waiting) && (!go ==> r.slots == s.slots + [requestAt])
      ensures go <==> pauseUntil <= now
      ensures go ==> nextRequestAt == old(nextRequestAt)
      ensures !go ==> requestAt == Max(pauseUntil, old(nextRequestAt)) && nextRequestAt == requestAt + interval
    {
      if pauseUntil <= now { return true, now; }
      requestAt := pauseUntil;
      if nextRequestAt > requestAt {
        requestAt := nextRequestAt;
      }
      nextRequestAt := requestAt + interval;
      go := false;
    }

    /** A pause never shortens one in force; a pause's step. */
    method Pause(now: nat, delay: int)
      modifies this`pauseUntil
      ensures forall s: State ::
        old(Shows(s)) && s.clock <= now && delay >= 0 ==>
          var r := Step(s, PauseFor(now, delay));
          Shows(r) && r.pauses == s.pauses + if delay > 0 then [now + delay] else []
      ensures pauseUntil == if delay <= 0 then old(pauseUntil) else Max(old(pauseUntil), now + delay)
    {
      if delay <= 0 { return; }
      var until := now + delay;
      if until > pauseUntil {
        pauseUntil := until;
      }
    }
  }

  // ---------------------------------------------------------------- all interleavings

  /** An admitted call: the slot it used, when it went, and how many pauses had been announced. */
  datatype Admission = Admission(slot: nat, at: nat, pauses: nat)

  /**
   `slots` lists every slot ever reserved; callers wait for one of them, by index. `pauses` lists the
   end of every pause announced so far.
   */
  datatype State = State(
    interval: nat,
    clock: nat,
    next: nat,
    pauseUntil: nat,
    slots: seq<nat>,
    pauses: seq<nat>,
    waiting: map<nat, nat>,
    admitted: seq<Admission>)

  datatype Event =
    | Arrive(caller: nat, now: nat)
    | Wake(caller: nat, now: nat)
    | GiveUp(caller: nat)
    | PauseFor(now: nat, delay: nat)

  function Book(s: State, caller: nat, now: nat, requestAt: nat): State {
    s.(clock := now, next := requestAt + s.interval, slots := s.slots + [requestAt],
      waiting := s.waiting[caller := |s.slots|])
  }

  /** A caller that has slept until its slot. */
  predicate AtItsSlot(s: State, caller: nat, now: nat) {
    caller in s.waiting && s.clock <= now && s.waiting[caller] < |s.slots| && s.slots[s.waiting[caller]] <= now
  }

  /** A caller wakes no earlier than its slot; the clock never goes back. */
  function Step(s: State, e: Event): (r: State) {
    match e
    case Arrive(caller, now) =>
      if caller in s.waiting || now < s.clock then s else Book(s, caller, now, Max(now, s.next))
    case Wake(caller, now) =>
      if caller !in s.waiting || now < s.clock || s.waiting[caller] >= |s.slots| || now < s.slots[s.waiting[caller]]
        then s
      else if s.pauseUntil <= now then
        s.(clock := now, waiting := s.waiting - {caller},
           admitted := s.admitted + [Admission(s.waiting[caller], now, |s.pauses|)])
      else Book(s, caller, now, Max(s.pauseUntil, s.next))
    case GiveUp(caller) => s.(waiting := s.waiting - {caller})
    case PauseFor(now, delay) =>
      if now < s.clock || delay == 0 then s
      else s.(clock := now, pauseUntil := Max(s.pauseUntil, now + delay), pauses := s.pauses + [now + delay])
  }

  function Run(s: State, es: seq<Event>): (r: State)
    decreases |es|
  {
    if es == [] then s else Run(Step(s, es[0]), es[1..])
  }

  function Begin(interval: nat, t0: nat): State {
    State(interval, t0, 0, 0, [], [], map[], [])
  }

  lemma {:induction false} RunSnoc(s: State, es: seq<Event>, e: Event)
    ensures Run(s, es + [e]) == Step(Run(s, es), e)
    decreases |es|
  {
    hide Step;
    if es == [] {
      assert [] + [e] == [e] && [e][1..] == [];
    } else {
      assert (es + [e])[0] == es[0] && (es + [e])[1..] == es[1..] + [e];
      RunSnoc(Step(s, es[0]), es[1..], e);
    }
  }

  /** Reserved slots are at least an interval apart, and the next one is an interval after the last. */
  predicate Spaced(s: State, t0: nat) {
    && s.clock >= t0
    && (s.slots != [] ==> s.slots[0] >= t0 && s.next >= s.slots[|s.slots| - 1] + s.interval)
    && (forall i :: 0 <= i < |s.slots| - 1 ==> s.slots[i + 1] >= s.slots[i] + s.interval)
  }

  /** No slot is waited for twice, used twice, or waited for after it was used. */
  predicate SlotsOwned(s: State) {
    && (forall c :: c in s.waiting ==> s.waiting[c] < |s.slots|)
    && (forall c, d :: c in s.waiting && d in s.waiting && c != d ==> s.waiting[c] != s.waiting[d])
    && (forall c, i :: c in s.waiting && 0 <= i < |s.admitted| ==> s.waiting[c] != s.admitted[i].slot)
    && (forall i, j :: 0 <= i < j < |s.admitted| ==> s.admitted[i].slot != s.admitted[j].slot)
  }

  /** Calls go no earlier than their slot, and after every pause announced before they went. */
  predicate Admitted(s: State) {
    && (forall k :: 0 <= k < |s.pauses| ==> s.pauses[k] <= s.pauseUntil)
    && (forall i :: 0 <= i < |s.admitted| ==>
          var a := s.admitted[i];
          && a.slot < |s.slots| && s.slots[a.slot] <= a.at <= s.clock
          && a.pauses <= |s.pauses| && (forall k :: 0 <= k < a.pauses ==> s.pauses[k] <= a.at))
  }

  ghost predicate Inv(s: State, t0: nat) {
    Spaced(s, t0) && SlotsOwned(s) && Admitted(s)
  }

  lemma {:induction false} StepKeepsSpacing(s: State, t0: nat, e: Event)
    requires Spaced(s, t0)
    ensures Spaced(Step(s, e), t0)
  {
  }

  lemma {:induction false} BookKeepsOwners(s: State, caller: nat, now: nat, requestAt: nat)
    requires SlotsOwned(s) && forall i :: 0 <= i < |s.admitted| ==> s.admitted[i].slot < |s.slots|
    ensures SlotsOwned(Book(s, caller, now, requestAt))
  {
  }

  lemma {:induction false} AdmissionKeepsOwners(s: State, caller: nat, a: Admission)
    requires SlotsOwned(s) && caller in s.waiting && a.slot == s.waiting[caller]
    ensures SlotsOwned(s.(waiting := s.waiting - {caller}, admitted := s.admitted + [a]))
  {
  }

  lemma {:induction false} StepKeepsOwners(s: State, e: Event)
    requires SlotsOwned(s) && Admitted(s)
    ensures SlotsOwned(Step(s, e))
  {
    match e
    case Arrive(caller, now) =>
      hide SlotsOwned;
      BookKeepsOwners(s, caller, now, Max(now, s.next));
    case Wake(caller, now) =>
      if Step(s, e) != s {
        assert SlotsOwned(s.(clock := now));
        hide SlotsOwned;
        if s.pauseUntil <= now {
          AdmissionKeepsOwners(s.(clock := now), caller, Admission(s.waiting[caller], now, |s.pauses|));
        } else {
          BookKeepsOwners(s, caller, now, Max(s.pauseUntil, s.next));
        }
      }
    case GiveUp(_) =>
    case PauseFor(_, _) =>
  }

  lemma {:induction false} StepKeepsAdmissions(s: State, e: Event)
    requires SlotsOwned(s) && Admitted(s)
    ensures Admitted(Step(s, e))
  {
  }

  lemma {:induction false} RunKeepsInv(s: State, t0: nat, es: seq<Event>)
    requires Inv(s, t0)
    ensures Inv(Run(s, es), t0) && Run(s, es).interval == s.interval
    decreases |es|
  {
    if es != [] {
      StepKeepsSpacing(s, t0, es[0]);
      StepKeepsOwners(s, es[0]);
      StepKeepsAdmissions(s, es[0]);
      assert Step(s, es[0]).interval == s.interval;
      hide Step, Spaced, SlotsOwned, Admitted;
      RunKeepsInv(Step(s, es[0]), t0, es[1..]);
    }
  }

  // ---------------------------------------------------------------- what the pacer promises

  lemma {:induction false} SlotIsLate(s: State, t0: nat, i: nat)
    requires Spaced(s, t0) && i < |s.slots|
    ensures s.slots[i] >= t0 + i * s.interval
  {
    if i > 0 {
      SlotIsLate(s, t0, i - 1);
      assert i * s.interval == (i - 1) * s.interval + s.interval;
    }
  }

  lemma {:induction false} SlotsFarApart(s: State, t0: nat, i: nat, j: nat)
    requires Spaced(s, t0) && i < j < |s.slots|
    ensures s.slots[j] >= s.slots[i] + s.interval
    decreases j
  {
    if i < j - 1 {
      SlotsFarApart(s, t0, i, j - 1);
    }
  }

  function UsedSlots(admitted: seq<Admission>): (slots: seq<nat>)
    ensures |slots| == |admitted|
  {
    seq(|admitted|, i requires 0 <= i < |admitted| => admitted[i].slot)
  }

  /**
   In any interleaving, by time t at most (t - t0) / interval + 1 calls have gone, whatever pauses and
   cancellations happened; reserved slots are an interval apart; and each call went no earlier than
   its slot and after the end of every pause announced before it.
   */
  lemma {:induction false} AdmissionsAreBounded(interval: nat, t0: nat, es: seq<Event>)
    requires interval > 0
    ensures
      var s := Run(Begin(interval, t0), es);
      && s.clock >= t0 && |s.admitted| <= (s.clock - t0) / interval + 1
      && (forall i, j :: 0 <= i < j < |s.slots| ==> s.slots[j] >= s.slots[i] + interval)
  {
    hide Run, Step, SlotsOwned;
    var s := Run(Begin(interval, t0), es);
    assert Inv(Begin(interval, t0), t0) by { BeginIsConsistent(interval, t0); }
    RunKeepsInv(Begin(interval, t0), t0, es);
    forall i, j | 0 <= i < j < |s.slots|
      ensures s.slots[j] >= s.slots[i] + interval
    {
      SlotsFarApart(s, t0, i, j);
    }
    AdmittedFit(s, t0);
  }

  lemma {:induction false} BeginIsConsistent(interval: nat, t0: nat)
    ensures Inv(Begin(interval, t0), t0)
  {
  }

  function Allowance(elapsed: nat, interval: nat): nat
    requires interval > 0
  {
    elapsed / interval + 1
  }

  lemma {:induction false} SlotWithinAllowance(s: State, t0: nat, i: nat)
    requires Inv(s, t0) && s.interval > 0 && i < |s.admitted|
    ensures s.admitted[i].slot < Allowance(s.clock - t0, s.interval)
  {
    hide SlotsOwned;
    SlotIsLate(s, t0, s.admitted[i].slot);
    hide Spaced, Allowance;
    WithinAllowance(s.admitted[i].slot, s.clock - t0, s.interval);
  }

  lemma {:induction false} WithinAllowance(x: nat, elapsed: nat, interval: nat)
    requires interval > 0 && x * interval <= elapsed
    ensures x < Allowance(elapsed, interval)
  {
  }

  lemma {:induction false} AdmittedFit(s: State, t0: nat)
    requires Inv(s, t0) && s.interval > 0
    ensures |s.admitted| <= Allowance(s.clock - t0, s.interval)
  {
    hide Allowance;
    forall i | 0 <= i < |s.admitted|
      ensures s.admitted[i].slot < Allowance(s.clock - t0, s.interval)
    {
      SlotWithinAllowance(s, t0, i);
    }
    DistinctBelow(UsedSlots(s.admitted), Allowance(s.clock - t0, s.interval));
  }

  lemma {:induction false} QuotientBound(x: nat, d: nat, n: nat)
    requires d > 0
    ensures x * d <= n <==> x <= n / d
  {
    var q := n / d;
    assert n == q * d + n % d;
    if x <= q {
      MulMonotone(d, x, q);
    } else {
      MulMonotone(d, q + 1, x);
    }
  }

  /** No call goes while a pause announced before it is in force. */
  lemma {:induction false} NoAdmissionDuringPause(interval: nat, t0: nat, es: seq<Event>, i: nat, k: nat)
    requires
      var s := Run(Begin(interval, t0), es);
      i < |s.admitted| && k < s.admitted[i].pauses
    ensures
      var s := Run(Begin(interval, t0), es);
      k < |s.pauses| && s.admitted[i].at >= s.pauses[k] && s.admitted[i].slot < |s.slots| &&
      s.admitted[i].at >= s.slots[s.admitted[i].slot]
  {
    hide Run;
    RunKeepsInv(Begin(interval, t0), t0, es);
  }

  /**
   A caller that comes back once goes iff its slot has come and no pause is in force; a caller that
   comes back too early still sleeps, and one that meets a pause books behind it.
   */
  lemma {:induction false} GoesIff(s: State, caller: nat, now: nat, later: nat)
    requires caller !in s.waiting && s.clock <= now <= later
    ensures
      var slot := if s.next > now then s.next else now;
      var asleep := Step(s, Arrive(caller, now));
      var t := Step(asleep, Wake(caller, later));
      && asleep.slots == s.slots + [slot] && caller in asleep.waiting
      && (caller !in t.waiting <==> slot <= later && s.pauseUntil <= later)
      && (if later < slot then t == asleep
          else if s.pauseUntil <= later then
            && t.admitted == s.admitted + [Admission(|s.slots|, later, |s.pauses|)]
            && t.slots == s.slots + [slot] && t.next == slot + s.interval
          else
            && t.admitted == s.admitted
            && var again := if s.pauseUntil > slot + s.interval then s.pauseUntil else slot + s.interval;
            t.slots == s.slots + [slot, again] && t.next == again + s.interval)
  {
  }

  /** A caller that gives up keeps its slot booked and takes no other's. */
  lemma {:induction false} GivingUp(s: State, caller: nat)
    ensures
      var t := Step(s, GiveUp(caller));
      && t.waiting.Keys == s.waiting.Keys - {caller} && (forall c :: c in t.waiting ==> t.waiting[c] == s.waiting[c])
      && t.slots == s.slots && t.next == s.next && t.admitted == s.admitted
  {
  }

  /** Slots that fit into a half-open minute. */
  function SlotsPerMinute(interval: nat): nat
    requires interval > 0
  {
    (MINUTE + interval - 1) / interval
  }

  /** The interval is rounded down, so a minute holds the configured number of slots iff it divides a minute. */
  lemma {:induction false} RateIsExactIff(rate: nat)
    requires 0 < rate <= MINUTE
    ensures SlotsPerMinute(Interval(rate)) >= rate
    ensures SlotsPerMinute(Interval(rate)) == rate <==> 60_000_000_000 % rate == 0
  {
    var i := MINUTE / rate;
    var remainder := MINUTE % rate;
    assert MINUTE == rate * i + remainder;
    assert i >= 1 by { QuotientBound(1, rate, MINUTE); }
    assert Interval(rate) == i;
    if remainder == 0 {
      assert MINUTE + i - 1 == rate * i + (i - 1);
      QuotientBound(rate, i, MINUTE + i - 1);
      QuotientBound(rate + 1, i, MINUTE + i - 1);
      assert (rate + 1) * i == rate * i + i;
    } else {
      assert (rate + 1) * i == rate * i + i <= MINUTE + i - 1;
      QuotientBound(rate + 1, i, MINUTE + i - 1);
    }
  }
}
