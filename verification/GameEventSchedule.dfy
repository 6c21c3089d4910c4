/** The schedule of game events: when an event is on, and how long the manager may sleep
    (GameEventMgr::CheckOneGameEvent, NextCheck). Times are seconds; `occurence * MINUTE`,
    `length * MINUTE` and the returned delays are 32-bit and wrap. */
module GameEventSchedule {

  const MINUTE := 60
  const TWO_TO_THE_32 := 0x1_0000_0000
  const MAX_CHECK_DELAY := 86400

  datatype GameEventData = GameEventData(
    start: int, end: int, occurence: nat, length: nat, hardcoded: bool, disabled: bool)
  {
    predicate IsValid() { length > 0 }

    /** Seconds between two starts. */
    function Period(): nat { (occurence * MINUTE) % TWO_TO_THE_32 }

    function Duration(): nat { (length * MINUTE) % TWO_TO_THE_32 }

    /** The code divides by the period only between start and end, so an event that ends before it
        starts (the default one) needs none. */
    predicate Usable() { Period() > 0 || end < start }
  }

  function ToUint32(x: int): nat { x % TWO_TO_THE_32 }

  predicate CheckOneGameEvent(e: GameEventData, now: int)
    requires e.Usable()
  {
    e.start < now && now < e.end && (now - e.start) % e.Period() < e.Duration()
  }

  function NextCheck(e: GameEventData, now: int): nat
    requires e.Usable()
  {
    if now > e.end then MAX_CHECK_DELAY
    else if e.start > now then ToUint32(e.start - now)
    else
      var phase := (now - e.start) % e.Period();
      var delay := if phase < e.Duration() then e.Duration() - phase else e.Period() - phase;
      if e.end < now + delay then ToUint32(e.end - now) else delay
  }

  /** The answer at `now` is the answer until the next check. */
  ghost predicate Steady(e: GameEventData, now: int)
    requires e.Usable()
  {
    forall u :: now <= u < now + NextCheck(e, now) ==> CheckOneGameEvent(e, u) == CheckOneGameEvent(e, now)
  }

  /** The one blind spot: exactly at its start second a usable event still counts as off, but the
      manager is told to sleep through the whole first occurrence. */
  predicate AtBlindSpot(e: GameEventData, now: int) {
    now == e.start && e.Duration() > 0 && e.end > e.start + 1
  }

  lemma PhaseMoves(p: int, a: int, k: nat)
    requires p > 0 && a % p + k < p
    ensures (a + k) % p == a % p + k
  {
    assert a + k == p * (a / p) + (a % p + k);
    ModOf(p, a / p, a % p + k);
  }

  lemma ModOf(p: int, q: int, r: int)
    requires 0 <= r < p
    ensures (p * q + r) % p == r
  {
    var x := p * q + r;
    assert p * (x / p) + x % p == p * q + r;
    var d := x / p - q;
    assert p * d == r - x % p;
    assert d >= 1 ==> p * d >= p;
    assert d <= -1 ==> p * d <= -p;
  }

  // ---------- when an event is on ----------

  /** Seconds from the start to occurrence k; the first one is number 0. */
  function Occurrence(e: GameEventData, k: nat): nat {
    if k == 0 then 0 else e.Period() + Occurrence(e, k - 1)
  }

  lemma {:induction false} OccurrenceIsMultiple(e: GameEventData, k: nat)
    ensures Occurrence(e, k) == e.Period() * k
  {
    if k > 0 {
      OccurrenceIsMultiple(e, k - 1);
    }
  }

  /** The moment lies in occurrence k. */
  predicate During(e: GameEventData, k: nat, now: int) {
    e.start + Occurrence(e, k) <= now < e.start + Occurrence(e, k) + e.Duration()
  }

  lemma Distribute(p: int, a: int, b: int)
    ensures p * (a + b) == p * a + p * b
  {
  }

  lemma MultiplesVanish(p: int, k: int, x: nat)
    requires p > 0
    ensures (p * k + x) % p == x % p <= x
  {
    var q, r := x / p, x % p;
    assert x == p * q + r;
    Distribute(p, k, q);
    ModOf(p, k + q, r);
    assert q >= 0;
    assert p * q >= 0;
  }

  lemma PhaseInOccurrence(e: GameEventData, k: nat, now: int)
    requires e.Period() > 0 && e.start + Occurrence(e, k) <= now
    ensures (now - e.start) % e.Period() == (now - e.start - Occurrence(e, k)) % e.Period()
    ensures (now - e.start) % e.Period() <= now - e.start - Occurrence(e, k)
  {
    OccurrenceIsMultiple(e, k);
    MultiplesVanish(e.Period(), k, now - e.start - Occurrence(e, k));
  }

  /** An event is on exactly while one of its occurrences lasts, strictly between its start and its end. */
  lemma OnDuringOccurrences(e: GameEventData, now: int)
    requires e.Usable()
    ensures CheckOneGameEvent(e, now) <==> e.start < now < e.end && exists k: nat :: During(e, k, now)
  {
    if e.start < now < e.end {
      var p, x := e.Period(), now - e.start;
      var q := x / p;
      OccurrenceIsMultiple(e, q);
      assert x == p * q + x % p;
      if CheckOneGameEvent(e, now) {
        assert During(e, q, now);
      }
      if k: nat :| During(e, k, now) {
        PhaseInOccurrence(e, k, now);
      }
    }
  }

  /** Between start and end, the answer is the same in every period. */
  lemma EventRecurs(e: GameEventData, now: int, k: nat)
    requires e.Usable() && e.start < now && now + Occurrence(e, k) < e.end
    ensures CheckOneGameEvent(e, now + Occurrence(e, k)) == CheckOneGameEvent(e, now)
  {
    PhaseInOccurrence(e, k, now + Occurrence(e, k));
  }

  /** In the first period it is on exactly while the first occurrence lasts. */
  lemma OnInFirstPeriod(e: GameEventData, now: int)
    requires e.Usable() && e.start < now < e.end && now - e.start < e.Period()
    ensures CheckOneGameEvent(e, now) <==> now - e.start < e.Duration()
  {
    ModOf(e.Period(), 0, now - e.start);
  }

  // ---------- how long the manager may sleep ----------

  lemma SteadyInside(e: GameEventData, now: int, u: int)
    requires e.Usable() && e.start < now <= u < now + NextCheck(e, now) && now <= e.end
    ensures CheckOneGameEvent(e, u) == CheckOneGameEvent(e, now)
  {
    var phase := (now - e.start) % e.Period();
    if phase + (u - now) < e.Period() {
      PhaseMoves(e.Period(), now - e.start, u - now);
      assert u - e.start == (now - e.start) + (u - now);
    }
    assert 0 <= (u - e.start) % e.Period() < e.Period();
  }

  /** The sleep is right exactly outside the blind spot. */
  lemma SteadyUnlessAtStart(e: GameEventData, now: int)
    requires e.Usable()
    ensures Steady(e, now) <==> !AtBlindSpot(e, now)
  {
    if AtBlindSpot(e, now) {
      BlindSpotIsUnsteady(e);
    } else if now < e.start || now > e.end {
    } else if now == e.start {
      forall u | now <= u < now + NextCheck(e, now)
        ensures !CheckOneGameEvent(e, u)
      {
      }
    } else {
      forall u | now <= u < now + NextCheck(e, now)
        ensures CheckOneGameEvent(e, u) == CheckOneGameEvent(e, now)
      {
        SteadyInside(e, now, u);
      }
    }
  }

  /** When the phase has moved on to a later one; a whole period is phase 0. */
  lemma PhaseAt(p: int, x: int, later: int)
    requires p > 0 && x % p < later <= p
    ensures (x + (later - x % p)) % p == if later == p then 0 else later
  {
    var q, r := x / p, x % p;
    assert x + (later - r) == p * q + later;
    if later == p {
      Distribute(p, q, 1);
      ModOf(p, q + 1, 0);
    } else {
      ModOf(p, q, later);
    }
  }

  lemma SleepEnds(e: GameEventData, now: int)
    requires e.Usable() && e.start < now < e.end && 0 < e.Duration() < e.Period()
    ensures var next := NextCheck(e, now);
            now + next <= e.end &&
            (now + next < e.end ==> CheckOneGameEvent(e, now + next) != CheckOneGameEvent(e, now))
  {
    var p, phase := e.Period(), (now - e.start) % e.Period();
    var delay := if phase < e.Duration() then e.Duration() - phase else p - phase;
    if now + delay < e.end {
      PhaseAt(p, now - e.start, if phase < e.Duration() then e.Duration() else p);
      assert now + delay - e.start == (now - e.start) + delay;
    } else if e.end < now + delay {
      assert ToUint32(e.end - now) == e.end - now;
    }
  }

  /** Nor is it too short: it lasts until the event starts, changes, or ends for good. */
  lemma SleepIsLongest(e: GameEventData, now: int)
    requires e.Usable()
    ensures e.start - TWO_TO_THE_32 < now < e.start && now <= e.end ==> now + NextCheck(e, now) == e.start
    ensures e.start < now < e.end && 0 < e.Duration() < e.Period() ==>
              (CheckOneGameEvent(e, now + NextCheck(e, now)) != CheckOneGameEvent(e, now) <==>
                 CheckOneGameEvent(e, now) || now + NextCheck(e, now) < e.end)
    ensures now > e.end ==> NextCheck(e, now) == MAX_CHECK_DELAY
  {
    if e.start < now < e.end && 0 < e.Duration() < e.Period() {
      SleepEnds(e, now);
    }
  }

  lemma WrappedMinutes(n: nat)
    ensures n * MINUTE % TWO_TO_THE_32 % 4 == 0
  {
    var r, q := n * MINUTE % TWO_TO_THE_32, n * MINUTE / TWO_TO_THE_32;
    assert r == 4 * (15 * n - q * 0x4000_0000);
  }

  lemma DurationIsCoarse(e: GameEventData)
    ensures e.Duration() % 4 == 0 && e.Period() % 4 == 0
  {
    WrappedMinutes(e.length);
    WrappedMinutes(e.occurence);
  }

  lemma FirstPhases(p: int)
    requires p > 1
    ensures 0 % p == 0 && 1 % p == 1
  {
  }

  lemma SleepAtStart(e: GameEventData)
    requires e.Usable() && e.end > e.start + 1 && e.Duration() > 1 && 0 % e.Period() == 0
    ensures NextCheck(e, e.start) > 1
  {
    if e.end < e.start + e.Duration() {
      assert ToUint32(e.end - e.start) == e.end - e.start;
    }
  }

  lemma BlindSpotIsUnsteady(e: GameEventData)
    requires e.Usable() && AtBlindSpot(e, e.start)
    ensures NextCheck(e, e.start) > 1
    ensures !CheckOneGameEvent(e, e.start) && CheckOneGameEvent(e, e.start + 1)
  {
    DurationIsCoarse(e);
    assert e.Duration() >= 4 && e.Period() >= 4;
    FirstPhases(e.Period());
    assert CheckOneGameEvent(e, e.start + 1);
    SleepAtStart(e);
  }
}
