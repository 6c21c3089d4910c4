/** The limit on instances an account may enter per hour: src/game/AccountMgr.cpp, CheckInstanceCount and
    AddInstanceEnterTime. An account's map holds the last time it entered each instance. */
module InstanceLimit {
  import opened Basics
  import opened Runs

  const HOUR: int := 3600

  type Times = map<nat, int>

  /** Entered more than an hour ago. */
  predicate Expired(time: int, now: int) {
    time + HOUR < now
  }

  /** The instance whose entry the scan gives up: the first expired one in the order of ids. */
  ghost predicate FirstExpired(times: Times, now: int, id: nat) {
    id in times && Expired(times[id], now) && forall k :: k in times && k < id ==> !Expired(times[k], now)
  }

  ghost predicate SomeExpired(times: Times, now: int) {
    exists k :: k in times && Expired(times[k], now)
  }

  /** What a check answers and leaves of the account's entries. */
  ghost predicate Checked(times: Times, instance: nat, maxCount: nat, now: int, ok: bool, left: Times) {
    if instance in times || |times| < maxCount then ok && left == times
    else if SomeExpired(times, now) then ok && exists id :: FirstExpired(times, now, id) && left == times - {id}
    else !ok && left == times
  }

  method Smallest(ids: set<nat>) returns (least: nat)
    requires ids != {}
    ensures least in ids && forall k :: k in ids ==> least <= k
  {
    least :| least in ids;
    var todo := ids - {least};
    while todo != {}
      invariant todo <= ids && least in ids
      invariant forall k :: k in ids && k !in todo ==> least <= k
      decreases todo
    {
      var k: nat :| k in todo;
      if k < least {
        least := k;
      }
      todo := todo - {k};
    }
  }

  class AccountMgr {
    var enterTimes: map<nat, Times>

    constructor ()
      ensures enterTimes == map[]
    {
      enterTimes := map[];
    }

    method CheckInstanceCount(account: nat, instance: nat, maxCount: nat, now: int) returns (ok: bool)
      modifies this
      ensures account !in old(enterTimes) ==> ok && enterTimes == old(enterTimes)
      ensures account in old(enterTimes) ==>
                account in enterTimes
                && Checked(old(enterTimes)[account], instance, maxCount, now, ok, enterTimes[account])
                && enterTimes == old(enterTimes)[account := enterTimes[account]]
    {
      if account !in enterTimes {
        return true;
      }
      var times := enterTimes[account];
      if instance in times {
        return true;
      }
      if |times| < maxCount {
        return true;
      }
      var todo := times.Keys;
      while todo != {}
        invariant todo <= times.Keys && enterTimes == old(enterTimes)
        invariant forall k :: k in times && k !in todo ==> !Expired(times[k], now)
        invariant forall j, k :: j in times && j !in todo && k in todo ==> j < k
        decreases todo
      {
        var id := Smallest(todo);
        if Expired(times[id], now) {
          assert FirstExpired(times, now, id);
          enterTimes := enterTimes[account := times - {id}];
          return true;
        }
        todo := todo - {id};
      }
      ok := false;
    }

    method AddInstanceEnterTime(account: nat, instance: nat, enterTime: int)
      modifies this
      ensures enterTimes ==
              old(enterTimes)[account :=
                (if account in old(enterTimes) then old(enterTimes)[account] else map[])[instance := enterTime]]
    {
      if account !in enterTimes {
        var resetTimes: Times := map[instance := enterTime];
        enterTimes := enterTimes[account := resetTimes];
        return;
      }
      var times: Times := enterTimes[account];
      times := times[instance := enterTime];
      enterTimes := enterTimes[account := times];
    }
  }

  // ---------- runs ----------

  /** One account: its entries, if it has any, and all it ever entered, with the times. */
  datatype State = State(times: Option<Times>, history: seq<(nat, int)>, clock: int)

  /** A check at a time not before the last one, and on success, perhaps, the entry. */
  ghost predicate Step(maxCount: nat, a: State, b: State) {
    a.clock <= b.clock && exists instance: nat, enters: bool :: Tries(maxCount, a, b, instance, enters)
  }

  ghost predicate Tries(maxCount: nat, a: State, b: State, instance: nat, enters: bool) {
    exists ok, left :: Answer(maxCount, a, b.clock, instance, ok, left) && Entered(a, b, instance, enters && ok, left)
  }

  /** The answer to a check. */
  ghost predicate Answer(maxCount: nat, a: State, now: int, instance: nat, ok: bool, left: Option<Times>) {
    match a.times
    case None => ok && left == None
    case Some(times) => left.Some? && Checked(times, instance, maxCount, now, ok, left.value)
  }

  predicate Entered(a: State, b: State, instance: nat, enters: bool, left: Option<Times>) {
    if enters then
      && b.times == Some((if left.Some? then left.value else map[])[instance := b.clock])
      && b.history == a.history + [(instance, b.clock)]
    else b.times == left && b.history == a.history
  }

  /** The distinct instances entered within the last hour. */
  ghost function RecentInstances(history: seq<(nat, int)>, now: int): set<nat> {
    set k | 0 <= k < |history| && now - history[k].1 <= HOUR :: history[k].0
  }

  function EntryCount(s: State): nat {
    if s.times.None? then 0 else |s.times.value|
  }

  function Limit(maxCount: nat): nat {
    if maxCount == 0 then 1 else maxCount
  }

  /** What every run keeps: the map is not over the limit, holds true entries only, and misses no recent one. */
  ghost predicate Sound(maxCount: nat, s: State) {
    EntryCount(s) <= Limit(maxCount) && TrueEntries(s) && NoneMissed(s) && Past(s)
  }

  ghost predicate TrueEntries(s: State) {
    s.times.Some? ==> forall id :: id in s.times.value ==> (id, s.times.value[id]) in s.history
  }

  ghost predicate NoneMissed(s: State) {
    forall k :: 0 <= k < |s.history| && !Expired(s.history[k].1, s.clock) ==>
      s.times.Some? && s.history[k].0 in s.times.value && s.times.value[s.history[k].0] >= s.history[k].1
  }

  ghost predicate Past(s: State) {
    forall k :: 0 <= k < |s.history| ==> s.history[k].1 <= s.clock
  }

  lemma CheckLeavesRecent(times: Times, instance: nat, maxCount: nat, now: int, ok: bool, left: Times)
    requires Checked(times, instance, maxCount, now, ok, left)
    ensures left.Keys <= times.Keys && forall id :: id in left ==> left[id] == times[id]
    ensures forall id :: id in times && !Expired(times[id], now) ==> id in left
    ensures |left| <= |times|
    ensures ok && instance !in left && |times| <= Limit(maxCount) ==> |left| < Limit(maxCount)
  {
    if !(instance in times || |times| < maxCount) && SomeExpired(times, now) {
      var id :| FirstExpired(times, now, id) && left == times - {id};
      assert left.Keys == times.Keys - {id};
    }
    assert |left.Keys| == |left| && |times.Keys| == |times|;
    SubsetFits(left.Keys, times.Keys);
  }

  lemma StepKeepsSound(maxCount: nat, a: State, b: State)
    requires Sound(maxCount, a) && Step(maxCount, a, b)
    ensures Sound(maxCount, b)
  {
    var instance: nat, enters: bool :| Tries(maxCount, a, b, instance, enters);
    var ok, left :| Answer(maxCount, a, b.clock, instance, ok, left) && Entered(a, b, instance, enters && ok, left);
    var before: Times := if a.times.Some? then a.times.value else map[];
    var after: Times := if left.Some? then left.value else map[];
    if a.times.Some? {
      CheckLeavesRecent(before, instance, maxCount, b.clock, ok, after);
    }
    CountStaysInLimit(maxCount, b, after, instance, enters && ok);
    EntriesStayTrue(a, b, instance, enters && ok, before, after);
    NoneIsMissed(a, b, instance, enters && ok, before, after);
  }

  lemma CountStaysInLimit(maxCount: nat, b: State, after: Times, instance: nat, enters: bool)
    requires |after| <= Limit(maxCount) && (enters && instance !in after ==> |after| < Limit(maxCount))
    requires enters ==> b.times == Some(after[instance := b.clock])
    requires !enters ==> b.times == None || b.times == Some(after)
    ensures EntryCount(b) <= Limit(maxCount)
  {
    if enters {
      var now: Times := after[instance := b.clock];
      assert now.Keys == after.Keys + {instance};
      assert |now| == |now.Keys| && |after| == |after.Keys|;
    }
  }

  ghost predicate Remain(before: Times, after: Times, now: int) {
    && (forall id :: id in after ==> id in before && after[id] == before[id])
    && (forall id :: id in before && !Expired(before[id], now) ==> id in after)
  }

  lemma EntriesStayTrue(a: State, b: State, instance: nat, enters: bool, before: Times, after: Times)
    requires TrueEntries(a) && before == (if a.times.Some? then a.times.value else map[])
    requires Remain(before, after, b.clock)
    requires Entered(a, b, instance, enters, if a.times.Some? then Some(after) else None)
    ensures TrueEntries(b)
  {
    if b.times.Some? {
      forall id | id in b.times.value
        ensures (id, b.times.value[id]) in b.history
      {
        if enters && id == instance {
          assert b.history[|a.history|] == (instance, b.clock);
        } else {
          assert (id, before[id]) in a.history;
        }
      }
    }
  }

  lemma NoneIsMissed(a: State, b: State, instance: nat, enters: bool, before: Times, after: Times)
    requires NoneMissed(a) && Past(a) && a.clock <= b.clock
    requires before == (if a.times.Some? then a.times.value else map[])
    requires Remain(before, after, b.clock)
    requires Entered(a, b, instance, enters, if a.times.Some? then Some(after) else None)
    ensures NoneMissed(b) && Past(b)
  {
    forall k | 0 <= k < |b.history| && !Expired(b.history[k].1, b.clock)
      ensures b.times.Some? && b.history[k].0 in b.times.value && b.times.value[b.history[k].0] >= b.history[k].1
    {
      if k < |a.history| {
        assert b.history[k] == a.history[k];
        assert !Expired(a.history[k].1, a.clock);
        assert !Expired(before[a.history[k].0], b.clock);
      }
    }
  }

  ghost predicate Keeps(maxCount: nat, a: State, b: State) {
    Sound(maxCount, a) ==> Sound(maxCount, b)
  }

  ghost function StepOf(maxCount: nat): (State, State) -> bool {
    (a: State, b: State) => Step(maxCount, a, b)
  }

  ghost function KeepsOf(maxCount: nat): (State, State) -> bool {
    (a: State, b: State) => Keeps(maxCount, a, b)
  }

  lemma SoundCounts(maxCount: nat, s: State, now: int)
    requires Sound(maxCount, s) && s.clock <= now
    ensures |RecentInstances(s.history, now)| <= Limit(maxCount)
  {
    var recent := RecentInstances(s.history, now);
    if recent != {} {
      var id :| id in recent;
      assert s.times.Some?;
      assert recent <= s.times.value.Keys;
      SubsetFits(recent, s.times.value.Keys);
      assert |s.times.value.Keys| == |s.times.value|;
    }
  }

  ghost predicate IsHistory(maxCount: nat, run: seq<State>) {
    run != [] && IsRun(run, StepOf(maxCount)) && run[0].times == None && run[0].history == []
  }

  /** In every run an account has entered no more than maxCount instances within the last hour; a limit
      of zero works as a limit of one. */
  lemma NeverOverTheLimit(maxCount: nat, run: seq<State>, i: nat, now: int)
    requires IsHistory(maxCount, run) && i < |run| && run[i].clock <= now
    ensures |RecentInstances(run[i].history, now)| <= Limit(maxCount)
  {
    SoundAlong(maxCount, run, i);
    SoundCounts(maxCount, run[i], now);
  }

  lemma SoundAlong(maxCount: nat, run: seq<State>, i: nat)
    requires IsHistory(maxCount, run) && i < |run|
    ensures Sound(maxCount, run[i])
  {
    var step, kept := StepOf(maxCount), KeepsOf(maxCount);
    forall a, b, c | kept(a, b) && step(b, c)
      ensures kept(a, c)
    {
      if Sound(maxCount, b) {
        StepKeepsSound(maxCount, b, c);
      }
    }
    Along(run, step, kept, 0, i);
    assert Sound(maxCount, run[0]);
  }

  lemma RecentIsEntered(maxCount: nat, s: State, id: nat, now: int)
    requires Sound(maxCount, s) && s.clock <= now && id in RecentInstances(s.history, now)
    ensures s.times.Some? && id in s.times.value
  {
    var k :| 0 <= k < |s.history| && now - s.history[k].1 <= HOUR && s.history[k].0 == id;
    assert !Expired(s.history[k].1, s.clock);
  }

  /** A refusal is justified: in the run so far the account entered maxCount or more instances within the
      last hour, and the one it asks for is not among them. */
  lemma RefusalsAreJust(maxCount: nat, run: seq<State>, i: nat, instance: nat, now: int, left: Option<Times>)
    requires IsHistory(maxCount, run) && i < |run| && run[i].clock <= now
    requires Answer(maxCount, run[i], now, instance, false, left)
    ensures |RecentInstances(run[i].history, now)| >= maxCount && instance !in RecentInstances(run[i].history, now)
  {
    SoundAlong(maxCount, run, i);
    var s := run[i];
    var times := s.times.value;
    var recent := RecentInstances(s.history, now);
    forall id | id in times
      ensures id in recent
    {
      assert (id, times[id]) in s.history;
      var k :| 0 <= k < |s.history| && s.history[k] == (id, times[id]);
      assert !Expired(times[id], now);
    }
    SubsetFits(times.Keys, recent);
    assert |times.Keys| == |times|;
    if instance in recent {
      RecentIsEntered(maxCount, s, instance, now);
    }
  }

  /** In every run the account has entered at most maxCount instances within the last hour. */
  ghost predicate Limits(maxCount: nat) {
    forall run: seq<State>, i: nat, now: int :: IsHistory(maxCount, run) && i < |run| && run[i].clock <= now ==>
      |RecentInstances(run[i].history, now)| <= maxCount
  }

  /** With a limit of zero the first entry still passes. */
  lemma FirstEntryPasses() returns (run: seq<State>)
    ensures IsHistory(0, run) && |run| == 2 && run[1].clock == 0 && |RecentInstances(run[1].history, 0)| == 1
  {
    var a, b := State(None, [], 0), State(Some(map[7 := 0]), [(7, 0)], 0);
    assert Answer(0, a, 0, 7, true, None) && Entered(a, b, 7, true, None);
    assert Tries(0, a, b, 7, true);
    assert [(7, 0)][0] == (7, 0);
    assert RecentInstances([(7, 0)], 0) == {7};
    run := [a, b];
  }

  /** The limit limits exactly if it is not zero. */
  lemma ZeroLetsOneIn(maxCount: nat)
    ensures Limits(maxCount) <==> maxCount > 0
  {
    if maxCount == 0 {
      var run := FirstEntryPasses();
      assert !(|RecentInstances(run[1].history, 0)| <= 0);
    } else {
      forall run: seq<State>, i: nat, now: int | IsHistory(maxCount, run) && i < |run| && run[i].clock <= now
        ensures |RecentInstances(run[i].history, now)| <= maxCount
      {
        NeverOverTheLimit(maxCount, run, i, now);
      }
    }
  }
}
