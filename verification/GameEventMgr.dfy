/** The game event manager: which events are active and which spawns are in the grid
    (GameEventMgr.cpp). Creatures and game objects are two spawn tables of the same form. Pools,
    mails, quests and hardcoded event callbacks are not part of this model. */
module GameEventMgr {
  import opened GameEventSchedule
  import opened Runs

  /** guids has one list per signed event, known holds the guids with spawn data, pooled those that a
      pool owns, grid those that are in the grid. */
  datatype Spawns = Spawns(guids: seq<seq<nat>>, known: set<nat>, pooled: set<nat>, grid: set<nat>)

  datatype World = World(
    events: seq<GameEventData>, active: set<nat>, creatures: Spawns, objects: Spawns, initialized: bool)

  /** internal_event_id: signed events share one table of 2 * size - 1 lists. */
  function Index(size: nat, eventId: int): int { size + eventId - 1 }

  function Negative(id: nat): int { 0 - id }

  predicate InTable(w: World, eventId: int) {
    0 <= Index(|w.events|, eventId) < |w.creatures.guids|
    && Index(|w.events|, eventId) < |w.objects.guids|
  }

  /** What GameEventSpawn and GameEventUnspawn touch: guids with data, and of a negative event only
      those without a pool. */
  predicate Concerned(sp: Spawns, eventId: int, guid: nat) {
    guid in sp.known && !(eventId < 0 && guid in sp.pooled)
  }

  function Tagged(sp: Spawns, size: nat, eventId: int): set<nat> {
    var i := Index(size, eventId);
    if 0 <= i < |sp.guids| then set guid | guid in sp.guids[i] && Concerned(sp, eventId, guid) else {}
  }

  function SpawnIn(sp: Spawns, size: nat, eventId: int): Spawns { sp.(grid := sp.grid + Tagged(sp, size, eventId)) }

  function UnspawnIn(sp: Spawns, size: nat, eventId: int): Spawns { sp.(grid := sp.grid - Tagged(sp, size, eventId)) }

  function Spawn(w: World, eventId: int): World {
    if InTable(w, eventId)
    then w.(creatures := SpawnIn(w.creatures, |w.events|, eventId), objects := SpawnIn(w.objects, |w.events|, eventId))
    else w
  }

  function Unspawn(w: World, eventId: int): World {
    if InTable(w, eventId)
    then w.(creatures := UnspawnIn(w.creatures, |w.events|, eventId),
            objects := UnspawnIn(w.objects, |w.events|, eventId))
    else w
  }

  function ApplyNewEvent(w: World, id: nat): World {
    Unspawn(Spawn(w.(active := w.active + {id}), id), Negative(id))
  }

  function UnApplyEvent(w: World, id: nat): World {
    Spawn(Unspawn(w.(active := w.active - {id}), id), Negative(id))
  }

  predicate IsValidEvent(w: World, id: nat) { id < |w.events| && w.events[id].IsValid() }

  /** The new dates of an overwriting start or stop; the end moves by `length` seconds, not minutes. */
  function Redated(e: GameEventData, start: int): GameEventData {
    e.(start := start, end := if e.end <= start then start + e.length else e.end)
  }

  function StartEvent(w: World, id: nat, overwrite: bool, now: int): World {
    if !IsValidEvent(w, id) then w
    else
      var w1 := ApplyNewEvent(w, id);
      if overwrite then w1.(events := w1.events[id := Redated(w1.events[id], now)]) else w1
  }

  function StopEvent(w: World, id: nat, overwrite: bool, now: int): World {
    if !IsValidEvent(w, id) then w
    else
      var w1 := UnApplyEvent(w, id);
      if overwrite then w1.(events := w1.events[id := Redated(w1.events[id], now - w1.events[id].Duration())]) else w1
  }

  /** hardcodedListed says whether the event has a hardcoded handler, whose callbacks are not modelled. */
  function EnableEvent(w: World, id: nat, enable: bool, hardcodedListed: bool, now: int): World {
    if !IsValidEvent(w, id) || w.events[id].disabled == !enable then w
    else
      var w1 := w.(events := w.events[id := w.events[id].(disabled := !enable)]);
      if id !in w1.active || hardcodedListed then w1 else StopEvent(w1, id, true, now)
  }

  predicate IsScheduled(e: GameEventData) { !e.hardcoded && !e.disabled }

  /** No event that Update looks at makes it divide by zero. */
  predicate Periodic(w: World) {
    forall i :: 0 <= i < |w.events| && IsScheduled(w.events[i]) ==> w.events[i].Usable()
  }

  function UpdateOne(w: World, id: nat, now: int): World
    requires id < |w.events| && w.events[id].Usable()
  {
    if CheckOneGameEvent(w.events[id], now) then (if id in w.active then w else StartEvent(w, id, false, now))
    else if id in w.active then StopEvent(w, id, false, now)
    else if !w.initialized then Spawn(w, Negative(id))
    else w
  }

  /** The loop of Update from event id on; also the shortest delay seen. */
  function UpdateFrom(w: World, id: nat, now: int, delay: nat): (World, nat)
    requires Periodic(w)
    decreases |w.events| - id
  {
    if id >= |w.events| then (w, delay)
    else if !IsScheduled(w.events[id]) then UpdateFrom(w, id + 1, now, delay)
    else
      var next := NextCheck(w.events[id], now);
      UpdateFrom(UpdateOne(w, id, now), id + 1, now, if next < delay then next else delay)
  }

  /** The new world and the milliseconds until the next call. */
  function Update(w: World, now: int): (World, nat)
    requires Periodic(w)
  {
    var (w', delay) := UpdateFrom(w, 1, now, MAX_CHECK_DELAY);
    (w', (delay + 1) * 1000)
  }

  function Initialize(w: World, now: int): (World, nat)
    requires Periodic(w)
  {
    var (w', delay) := Update(w.(active := {}, initialized := false), now);
    (w'.(initialized := true), delay)
  }

  // ---------- the active set follows the schedule ----------

  /** Active events are usable ones, and the event table fits 16-bit signed ids. */
  predicate WellFormed(w: World) {
    && (forall id <- w.active :: IsValidEvent(w, id))
    && |w.creatures.guids| == |w.objects.guids| == (if w.events == [] then 0 else 2 * |w.events| - 1)
    && |w.events| <= 0x8000
  }

  lemma UpdateOneEffect(w: World, id: nat, now: int)
    requires WellFormed(w) && id < |w.events| && w.events[id].Usable()
    ensures var w' := UpdateOne(w, id, now);
            && w'.events == w.events && w'.initialized == w.initialized && WellFormed(w')
            && w'.active == if CheckOneGameEvent(w.events[id], now) then w.active + {id} else w.active - {id}
  {
    if CheckOneGameEvent(w.events[id], now) {
      assert w.events[id].IsValid();
      SwitchEffect(w, id, true);
      assert id in w.active ==> w.active + {id} == w.active;
    } else if id in w.active {
      SwitchEffect(w, id, false);
    } else {
      SpawningEffect(w, Negative(id));
      assert w.active - {id} == w.active;
    }
  }

  lemma SpawningEffect(w: World, eventId: int)
    requires WellFormed(w)
    ensures var w' := Spawn(w, eventId);
            w'.events == w.events && w'.initialized == w.initialized && WellFormed(w') && w'.active == w.active
  {
  }

  lemma SwitchEffect(w: World, id: nat, on: bool)
    requires WellFormed(w) && IsValidEvent(w, id)
    ensures var w' := if on then ApplyNewEvent(w, id) else UnApplyEvent(w, id);
            && w'.events == w.events && w'.initialized == w.initialized && WellFormed(w')
            && w'.active == if on then w.active + {id} else w.active - {id}
  {
    var w' := if on then ApplyNewEvent(w, id) else UnApplyEvent(w, id);
    assert w'.events == w.events;
    assert forall i <- w'.active :: IsValidEvent(w, i);
  }

  /** Event id is as the schedule says, if Update looks at it at all. */
  ghost predicate OnSchedule(events: seq<GameEventData>, active: set<nat>, id: nat, now: int)
    requires id < |events| && (IsScheduled(events[id]) ==> events[id].Usable())
  {
    IsScheduled(events[id]) ==> (id in active <==> CheckOneGameEvent(events[id], now))
  }

  lemma {:induction false} UpdateFollowsSchedule(w: World, id: nat, now: int, delay: nat)
    requires Periodic(w) && WellFormed(w)
    ensures var (w', d) := UpdateFrom(w, id, now, delay);
            && w'.events == w.events && WellFormed(w') && w'.initialized == w.initialized
            && d <= delay
            && (forall i :: i < id || i >= |w.events| || !IsScheduled(w.events[i]) ==>
                  (i in w'.active <==> i in w.active))
            && (forall i :: id <= i < |w.events| ==> OnSchedule(w.events, w'.active, i, now))
            && (forall i :: id <= i < |w.events| && IsScheduled(w.events[i]) ==> d <= NextCheck(w.events[i], now))
    decreases |w.events| - id
  {
    if id < |w.events| {
      if IsScheduled(w.events[id]) {
        var next := NextCheck(w.events[id], now);
        UpdateOneEffect(w, id, now);
        UpdateFollowsSchedule(UpdateOne(w, id, now), id + 1, now, if next < delay then next else delay);
      } else {
        UpdateFollowsSchedule(w, id + 1, now, delay);
      }
    }
  }

  /** An update leaves hardcoded and disabled events, and event 0, as they are; all others are on afterwards exactly if
      their schedule says so. */
  lemma UpdatedEvents(w: World, now: int, i: nat)
    requires Periodic(w) && WellFormed(w) && i < |w.events|
    ensures i in Update(w, now).0.active <==>
              if i > 0 && !w.events[i].hardcoded && !w.events[i].disabled then CheckOneGameEvent(w.events[i], now)
              else i in w.active
  {
    UpdateFollowsSchedule(w, 1, now, MAX_CHECK_DELAY);
    if i > 0 { assert OnSchedule(w.events, Update(w, now).0.active, i, now); }
  }

  /** Enabling or disabling an event stops it if it is active, unless it was so before or has a hardcoded handler; it
      starts nothing and concerns no other event. */
  lemma EnableStops(w: World, id: nat, enable: bool, hardcodedListed: bool, now: int)
    requires WellFormed(w) && IsValidEvent(w, id)
    ensures var w' := EnableEvent(w, id, enable, hardcodedListed, now);
            && |w'.events| == |w.events| && w'.events[id].disabled == !enable
            && (forall i: nat :: i < |w.events| && i != id ==> w'.events[i] == w.events[i])
            && w'.active ==
               if w.events[id].disabled == !enable || hardcodedListed then w.active else w.active - {id}
  {
    var w1 := w.(events := w.events[id := w.events[id].(disabled := !enable)]);
    SwitchEffect(w1, id, false);
  }

  /** The delay is no shorter than needed: the longest one, or some event's next check. */
  lemma {:induction false} DelayIsSomeCheck(w: World, id: nat, now: int, delay: nat)
    requires Periodic(w) && WellFormed(w)
    ensures var d := UpdateFrom(w, id, now, delay).1;
            d == delay ||
            exists i :: id <= i < |w.events| && IsScheduled(w.events[i]) && d == NextCheck(w.events[i], now)
    decreases |w.events| - id
  {
    if id < |w.events| {
      if IsScheduled(w.events[id]) {
        var next := NextCheck(w.events[id], now);
        UpdateOneEffect(w, id, now);
        DelayIsSomeCheck(UpdateOne(w, id, now), id + 1, now, if next < delay then next else delay);
      } else {
        DelayIsSomeCheck(w, id + 1, now, delay);
      }
    }
  }

  /** Starting an event with new dates puts it on schedule from the next second on, exactly if it has not ended by
      then and its length does not wrap to nothing. An end that lies ahead stays; otherwise the event is given as
      many seconds as it has minutes. */
  lemma OverwrittenStart(w: World, id: nat, now: int)
    requires IsValidEvent(w, id) && w.events[id].Period() > 0 && WellFormed(w)
    ensures var w' := StartEvent(w, id, true, now);
            && |w'.events| == |w.events| && id in w'.active && w'.events[id].Usable()
            && (CheckOneGameEvent(w'.events[id], now + 1) <==>
                  w'.events[id].end > now + 1 && w.events[id].Duration() > 0)
            && now < w'.events[id].end
            && w'.events[id].end == (if now < w.events[id].end then w.events[id].end else now + w.events[id].length)
  {
    SwitchEffect(w, id, true);
    DurationIsCoarse(w.events[id]);
    var e := StartEvent(w, id, true, now).events[id];
    if now + 1 < e.end {
      OnInFirstPeriod(e, now + 1);
    }
  }

  /** Stopping an event with new dates takes it off schedule at once, exactly if it does not last as long as its
      period, or is over anyway. */
  lemma OverwrittenStop(w: World, id: nat, now: int)
    requires IsValidEvent(w, id) && w.events[id].Period() > 0 && WellFormed(w)
    ensures var w' := StopEvent(w, id, true, now);
            && |w'.events| == |w.events| && id !in w'.active && w'.events[id].Usable()
            && (!CheckOneGameEvent(w'.events[id], now) <==>
                  || w.events[id].Duration() < w.events[id].Period() || w.events[id].Duration() == 0
                  || w'.events[id].end <= now)
            && (now < w.events[id].end ==> w'.events[id].end == w.events[id].end)
  {
    SwitchEffect(w, id, false);
    var e := StopEvent(w, id, true, now).events[id];
    if 0 < e.Duration() < e.Period() && now < e.end {
      OnInFirstPeriod(e, now);
    }
  }

  /** From one Update to the next call at the returned delay, the active set is what the schedule
      says at every moment except possibly the last second. */
  lemma LagIsOneSecond(w: World, now: int, id: nat, u: int)
    requires Periodic(w) && WellFormed(w)
    requires 1 <= id < |w.events| && IsScheduled(w.events[id]) && !AtBlindSpot(w.events[id], now)
    requires now <= u < now + Update(w, now).1 / 1000 - 1
    ensures id in Update(w, now).0.active <==> CheckOneGameEvent(w.events[id], u)
  {
    UpdateFollowsSchedule(w, 1, now, MAX_CHECK_DELAY);
    SteadyUnlessAtStart(w.events[id], now);
    assert OnSchedule(w.events, Update(w, now).0.active, id, now);
  }

  /** Two events, seen from second 150: the other event's window ends at 199, so the manager wakes up
      at 200, the very second event 1 starts, leaves it off and sleeps until 801. */
  const DEFAULT_EVENT := GameEventData(1, 0, 0, 0, false, false)
  const MISSED_EVENT := GameEventData(200, 100000, 1440, 10, false, false)
  const OTHER_EVENT := GameEventData(139, 100000, 1440, 1, false, false)

  lemma MissedSchedule()
    ensures MISSED_EVENT.Usable() && OTHER_EVENT.Usable() && DEFAULT_EVENT.Usable()
    ensures NextCheck(MISSED_EVENT, 150) == 50 && NextCheck(OTHER_EVENT, 150) == 49
    ensures NextCheck(MISSED_EVENT, 200) == 600 && NextCheck(OTHER_EVENT, 200) == 86339
    ensures !CheckOneGameEvent(MISSED_EVENT, 200) && !CheckOneGameEvent(MISSED_EVENT, 801)
    ensures forall u :: 201 <= u < 800 ==> CheckOneGameEvent(MISSED_EVENT, u)
  {
  }

  lemma TwoEventDelay(w: World, now: int)
    requires WellFormed(w) && w.events == [DEFAULT_EVENT, MISSED_EVENT, OTHER_EVENT]
    ensures Periodic(w)
    ensures var a, b := NextCheck(MISSED_EVENT, now), NextCheck(OTHER_EVENT, now);
            a < MAX_CHECK_DELAY && b < MAX_CHECK_DELAY ==> Update(w, now).1 == ((if a < b then a else b) + 1) * 1000
  {
    MissedSchedule();
    var w1 := UpdateOne(w, 1, now);
    UpdateOneEffect(w, 1, now);
    var w2 := UpdateOne(w1, 2, now);
    UpdateOneEffect(w1, 2, now);
    var a, b := NextCheck(MISSED_EVENT, now), NextCheck(OTHER_EVENT, now);
    if a < MAX_CHECK_DELAY && b < MAX_CHECK_DELAY {
      assert UpdateFrom(w, 1, now, MAX_CHECK_DELAY) == UpdateFrom(w1, 2, now, a);
      assert UpdateFrom(w1, 2, now, a) == UpdateFrom(w2, 3, now, if b < a then b else a);
    }
  }

  lemma ABlindSpotCostsAnOccurrence(w: World)
    requires WellFormed(w) && w.events == [DEFAULT_EVENT, MISSED_EVENT, OTHER_EVENT]
    ensures Periodic(w) && Update(w, 150).1 == 50 * 1000
    ensures var w200 := Update(w, 150).0;
            Periodic(w200) && Update(w200, 200).1 == 601 * 1000 && 1 !in Update(w200, 200).0.active
    ensures forall u :: 201 <= u < 800 ==> CheckOneGameEvent(MISSED_EVENT, u)
    ensures !CheckOneGameEvent(MISSED_EVENT, 801)
  {
    MissedSchedule();
    TwoEventDelay(w, 150);
    UpdateFollowsSchedule(w, 1, 150, MAX_CHECK_DELAY);
    var w200 := Update(w, 150).0;
    TwoEventDelay(w200, 200);
    UpdateFollowsSchedule(w200, 1, 200, MAX_CHECK_DELAY);
    assert OnSchedule(w.events, Update(w200, 200).0.active, 1, 200);
  }

  // ---------- spawns follow the active set ----------

  /** No guid is listed under two signed events. */
  ghost predicate Exclusive(sp: Spawns) {
    forall i, j, guid :: 0 <= i < j < |sp.guids| && guid in sp.guids[i] ==> guid !in sp.guids[j]
  }

  /** Guids of +id are in the grid iff the event is active, those of -id iff it is not. */
  ghost predicate Follows(sp: Spawns, size: nat, id: nat, active: bool) {
    && (forall guid <- Tagged(sp, size, id) :: guid in sp.grid <==> active)
    && (forall guid <- Tagged(sp, size, Negative(id)) :: guid in sp.grid <==> !active)
  }

  ghost predicate Consistent(w: World, id: nat) {
    Follows(w.creatures, |w.events|, id, id in w.active) && Follows(w.objects, |w.events|, id, id in w.active)
  }

  lemma TaggedApart(sp: Spawns, size: nat, a: int, b: int, guid: nat)
    requires Exclusive(sp) && a != b && guid in Tagged(sp, size, a)
    ensures guid !in Tagged(sp, size, b)
  {
  }

  /** The guids of an event are where they were. */
  ghost predicate Untouched(sp: Spawns, sp': Spawns, size: nat, id: nat) {
    && sp' == sp.(grid := sp'.grid)
    && (forall guid <- Tagged(sp, size, id) + Tagged(sp, size, Negative(id)) :: guid in sp'.grid <==> guid in sp.grid)
  }

  /** Starting or stopping an event puts its own guids in place and moves nobody else's. */
  lemma SwapSpawns(sp: Spawns, size: nat, id: nat, on: bool)
    requires Exclusive(sp) && id > 0
    ensures var sp' := if on then UnspawnIn(SpawnIn(sp, size, id), size, Negative(id))
                       else SpawnIn(UnspawnIn(sp, size, id), size, Negative(id));
            && Follows(sp', size, id, on)
            && forall other: nat :: other > 0 && other != id ==> Untouched(sp, sp', size, other)
  {
    var sp' := if on then UnspawnIn(SpawnIn(sp, size, id), size, Negative(id))
               else SpawnIn(UnspawnIn(sp, size, id), size, Negative(id));
    assert forall e :: Tagged(sp', size, e) == Tagged(sp, size, e);
    forall guid | guid in Tagged(sp, size, id) ensures guid !in Tagged(sp, size, Negative(id)) {
      TaggedApart(sp, size, id, Negative(id), guid);
    }
    forall other: nat, e, guid |
      other > 0 && other != id && e in {other as int, Negative(other)} && guid in Tagged(sp, size, e)
      ensures guid in sp'.grid <==> guid in sp.grid
    {
      TaggedApart(sp, size, e, id, guid);
      TaggedApart(sp, size, e, Negative(id), guid);
    }
  }

  /** The table every operation keeps: well formed and with exclusive lists. */
  ghost predicate TablesFit(w: World) {
    WellFormed(w) && Exclusive(w.creatures) && Exclusive(w.objects)
  }

  /** An operation concerns one event at most: everybody else's activity and spawns are as before. */
  ghost predicate OnlyConcerns(w: World, w': World, id: nat) {
    && TablesFit(w') && |w'.events| == |w.events| && w'.initialized == w.initialized
    && (forall other: nat :: other > 0 && other != id ==>
          && Untouched(w.creatures, w'.creatures, |w.events|, other)
          && Untouched(w.objects, w'.objects, |w.events|, other)
          && (other in w'.active <==> other in w.active))
  }

  lemma StartPlaces(w: World, id: nat, overwrite: bool, now: int)
    requires TablesFit(w) && id > 0
    ensures OnlyConcerns(w, StartEvent(w, id, overwrite, now), id)
    ensures IsValidEvent(w, id) ==> Consistent(StartEvent(w, id, overwrite, now), id)
  {
    if IsValidEvent(w, id) {
      SwapSpawns(w.creatures, |w.events|, id, true);
      SwapSpawns(w.objects, |w.events|, id, true);
      var w1 := ApplyNewEvent(w, id);
      assert w1.creatures == UnspawnIn(SpawnIn(w.creatures, |w.events|, id), |w.events|, Negative(id));
      assert w1.objects == UnspawnIn(SpawnIn(w.objects, |w.events|, id), |w.events|, Negative(id));
    }
  }

  lemma StopPlaces(w: World, id: nat, overwrite: bool, now: int)
    requires TablesFit(w) && id > 0
    ensures OnlyConcerns(w, StopEvent(w, id, overwrite, now), id)
    ensures IsValidEvent(w, id) ==> Consistent(StopEvent(w, id, overwrite, now), id)
  {
    if IsValidEvent(w, id) {
      SwapSpawns(w.creatures, |w.events|, id, false);
      SwapSpawns(w.objects, |w.events|, id, false);
      var w1 := UnApplyEvent(w, id);
      assert w1.creatures == SpawnIn(UnspawnIn(w.creatures, |w.events|, id), |w.events|, Negative(id));
      assert w1.objects == SpawnIn(UnspawnIn(w.objects, |w.events|, id), |w.events|, Negative(id));
    }
  }

  /** The guids of +id are all off the grid. */
  ghost predicate OffGrid(w: World, id: nat) {
    Tagged(w.creatures, |w.events|, id) !! w.creatures.grid && Tagged(w.objects, |w.events|, id) !! w.objects.grid
  }

  /** One event of the first Update: whatever its schedule says, its spawns end up in place. */
  lemma FirstUpdateOnePlaces(w: World, id: nat, now: int)
    requires TablesFit(w) && 0 < id < |w.events| && w.events[id].Usable() && !w.initialized
    requires id !in w.active && OffGrid(w, id)
    ensures OnlyConcerns(w, UpdateOne(w, id, now), id) && Consistent(UpdateOne(w, id, now), id)
  {
    UpdateOneEffect(w, id, now);
    if CheckOneGameEvent(w.events[id], now) {
      StartPlaces(w, id, false, now);
    } else {
      FirstSpawn(w.creatures, |w.events|, id);
      FirstSpawn(w.objects, |w.events|, id);
    }
  }

  lemma FirstSpawn(sp: Spawns, size: nat, id: nat)
    requires Exclusive(sp) && id > 0 && Tagged(sp, size, id) !! sp.grid
    ensures var sp' := SpawnIn(sp, size, Negative(id));
            && Follows(sp', size, id, false)
            && forall other: nat :: other > 0 && other != id ==> Untouched(sp, sp', size, other)
  {
    var sp' := SpawnIn(sp, size, Negative(id));
    assert forall e :: Tagged(sp', size, e) == Tagged(sp, size, e);
    forall guid | guid in Tagged(sp, size, id) ensures guid !in Tagged(sp, size, Negative(id)) {
      TaggedApart(sp, size, id, Negative(id), guid);
    }
    forall other: nat, e, guid |
      other > 0 && other != id && e in {other as int, Negative(other)} && guid in Tagged(sp, size, e)
      ensures guid in sp'.grid <==> guid in sp.grid
    {
      TaggedApart(sp, size, e, Negative(id), guid);
    }
  }

  lemma UpdateOnePlaces(w: World, id: nat, now: int)
    requires TablesFit(w) && 0 < id < |w.events| && w.events[id].Usable() && w.initialized
    ensures OnlyConcerns(w, UpdateOne(w, id, now), id)
    ensures Consistent(w, id) ==> Consistent(UpdateOne(w, id, now), id)
  {
    UpdateOneEffect(w, id, now);
    StartPlaces(w, id, false, now);
    StopPlaces(w, id, false, now);
  }

  lemma UntouchedFollows(sp: Spawns, sp': Spawns, size: nat, id: nat, active: bool)
    requires Untouched(sp, sp', size, id)
    ensures Follows(sp, size, id, active) ==> Follows(sp', size, id, active)
    ensures Tagged(sp, size, id) !! sp.grid ==> Tagged(sp', size, id) !! sp'.grid
  {
    assert forall e :: Tagged(sp', size, e) == Tagged(sp, size, e);
    forall guid <- Tagged(sp, size, id) ensures guid in sp'.grid <==> guid in sp.grid {
      assert guid in Tagged(sp, size, id) + Tagged(sp, size, Negative(id));
    }
  }

  lemma OthersStay(w: World, w': World, id: nat, other: nat)
    requires OnlyConcerns(w, w', id) && other > 0 && other != id
    ensures Consistent(w, other) ==> Consistent(w', other)
    ensures OffGrid(w, other) ==> OffGrid(w', other)
    ensures other in w'.active <==> other in w.active
  {
    UntouchedFollows(w.creatures, w'.creatures, |w.events|, other, other in w.active);
    UntouchedFollows(w.objects, w'.objects, |w.events|, other, other in w.active);
  }

  /** The first Update puts every scheduled event from id on in place. */
  lemma {:induction false} FirstUpdatePlaces(w: World, id: nat, now: int, delay: nat, e: nat)
    requires TablesFit(w) && Periodic(w) && !w.initialized && id > 0 && 0 < e < |w.events|
    requires forall i :: id <= i < |w.events| ==> i !in w.active && OffGrid(w, i)
    requires if e < id then Consistent(w, e) else IsScheduled(w.events[e])
    ensures var w' := UpdateFrom(w, id, now, delay).0; TablesFit(w') && w'.events == w.events && Consistent(w', e)
    decreases |w.events| - id
  {
    if id < |w.events| {
      if IsScheduled(w.events[id]) {
        var w1 := UpdateOne(w, id, now);
        UpdateOneEffect(w, id, now);
        FirstUpdateOnePlaces(w, id, now);
        forall i | id + 1 <= i < |w.events| || i == e
          ensures i > 0 && i != id ==>
                    && (OffGrid(w, i) ==> OffGrid(w1, i)) && (Consistent(w, i) ==> Consistent(w1, i))
                    && (i in w1.active <==> i in w.active)
        {
          if i != id { OthersStay(w, w1, id, i); }
        }
        var next := NextCheck(w.events[id], now);
        FirstUpdatePlaces(w1, id + 1, now, if next < delay then next else delay, e);
      } else {
        FirstUpdatePlaces(w, id + 1, now, delay, e);
      }
    }
  }

  lemma {:induction false} UpdatePlaces(w: World, id: nat, now: int, delay: nat, e: nat)
    requires TablesFit(w) && Periodic(w) && w.initialized && id > 0 && e > 0
    ensures var w' := UpdateFrom(w, id, now, delay).0;
            TablesFit(w') && w'.events == w.events && w'.initialized && (Consistent(w, e) ==> Consistent(w', e))
    decreases |w.events| - id
  {
    if id < |w.events| {
      if IsScheduled(w.events[id]) {
        var w1 := UpdateOne(w, id, now);
        UpdateOneEffect(w, id, now);
        UpdateOnePlaces(w, id, now);
        if e != id { OthersStay(w, w1, id, e); }
        var next := NextCheck(w.events[id], now);
        UpdatePlaces(w1, id + 1, now, if next < delay then next else delay, e);
      } else {
        UpdatePlaces(w, id + 1, now, delay, e);
      }
    }
  }

  /** Initialize puts every scheduled event's spawns in place if +guids start off the grid. */
  lemma InitializePlaces(w: World, now: int, e: nat)
    requires WellFormed(w.(active := {})) && Exclusive(w.creatures) && Exclusive(w.objects) && Periodic(w)
    requires forall i :: 0 < i < |w.events| ==> OffGrid(w, i)
    requires 0 < e < |w.events| && IsScheduled(w.events[e])
    ensures var w' := Initialize(w, now).0; TablesFit(w') && w'.initialized && Consistent(w', e)
  {
    var w0 := w.(active := {}, initialized := false);
    assert forall i :: 0 < i < |w.events| ==> OffGrid(w, i) ==> OffGrid(w0, i);
    FirstUpdatePlaces(w0, 1, now, MAX_CHECK_DELAY, e);
  }

  // ---------- every run ----------

  /** One call from outside after initialization. */
  datatype Call =
    | CallUpdate(now: int)
    | CallStart(id: nat, overwrite: bool, now: int)
    | CallStop(id: nat, overwrite: bool, now: int)
    | CallEnable(id: nat, enable: bool, hardcodedListed: bool, now: int)

  ghost predicate Step(w: World, w': World) {
    exists call: Call :: StepBy(w, call, w')
  }

  ghost predicate StepBy(w: World, call: Call, w': World) {
    match call
    case CallUpdate(now) => Periodic(w) && w' == Update(w, now).0
    case CallStart(id, overwrite, now) => id > 0 && w' == StartEvent(w, id, overwrite, now)
    case CallStop(id, overwrite, now) => id > 0 && w' == StopEvent(w, id, overwrite, now)
    case CallEnable(id, enable, listed, now) => id > 0 && w' == EnableEvent(w, id, enable, listed, now)
  }

  ghost predicate Settled(w: World, e: nat) {
    TablesFit(w) && w.initialized && Consistent(w, e)
  }

  lemma StepSettles(w: World, w': World, e: nat)
    requires Settled(w, e) && e > 0 && Step(w, w')
    ensures Settled(w', e)
  {
    var call: Call :| StepBy(w, call, w');
    match call
    case CallUpdate(now) => UpdatePlaces(w, 1, now, MAX_CHECK_DELAY, e);
    case CallStart(id, overwrite, now) =>
      StartPlaces(w, id, overwrite, now);
      if id != e { OthersStay(w, w', id, e); }
    case CallStop(id, overwrite, now) =>
      StopPlaces(w, id, overwrite, now);
      if id != e { OthersStay(w, w', id, e); }
    case CallEnable(id, enable, listed, now) =>
      if IsValidEvent(w, id) {
        var w1 := w.(events := w.events[id := w.events[id].(disabled := !enable)]);
        assert TablesFit(w1);
        StopPlaces(w1, id, true, now);
        if id != e { OthersStay(w1, StopEvent(w1, id, true, now), id, e); }
      }
  }

  /** In every run after initialization, for an event that was scheduled when the server started:
      guids of +e are in the grid iff e is active, unpooled guids of -e iff it is not. */
  lemma SpawnsFollowEvents(start: World, now: int, run: seq<World>, j: nat, e: nat)
    requires WellFormed(start.(active := {})) && Exclusive(start.creatures) && Exclusive(start.objects)
    requires Periodic(start)
    requires forall i :: 0 < i < |start.events| ==> OffGrid(start, i)
    requires 0 < e < |start.events| && IsScheduled(start.events[e])
    requires j < |run| && run[0] == Initialize(start, now).0 && IsRun(run, (a, b) => Step(a, b))
    ensures Consistent(run[j], e)
  {
    InitializePlaces(start, now, e);
    forall a, b, c | (Settled(a, e) ==> Settled(b, e)) && Step(b, c)
      ensures Settled(a, e) ==> Settled(c, e)
    {
      if Settled(a, e) { StepSettles(b, c, e); }
    }
    Along(run, (a, b) => Step(a, b), (a, b) => Settled(a, e) ==> Settled(b, e), 0, j);
  }

  /** An event that is not scheduled at the start is skipped, so it is in place after
      initialization exactly when its unpooled -e guids already were in the grid. */
  lemma {:induction false} SkippedEventsStay(w: World, id: nat, now: int, delay: nat, e: nat)
    requires TablesFit(w) && Periodic(w) && !w.initialized && id > 0 && 0 < e < |w.events|
    requires forall i :: id <= i < |w.events| ==> i !in w.active && OffGrid(w, i)
    requires !IsScheduled(w.events[e]) && e !in w.active && OffGrid(w, e)
    ensures var w' := UpdateFrom(w, id, now, delay).0;
            Consistent(w', e) <==> Tagged(w.creatures, |w.events|, Negative(e)) <= w.creatures.grid
                                   && Tagged(w.objects, |w.events|, Negative(e)) <= w.objects.grid
    decreases |w.events| - id
  {
    if id < |w.events| {
      if IsScheduled(w.events[id]) {
        var w1 := UpdateOne(w, id, now);
        UpdateOneEffect(w, id, now);
        FirstUpdateOnePlaces(w, id, now);
        forall i | id + 1 <= i < |w.events| || i == e
          ensures i > 0 && i != id ==> (OffGrid(w, i) ==> OffGrid(w1, i)) && (i in w1.active <==> i in w.active)
        {
          if i != id { OthersStay(w, w1, id, i); }
        }
        NegativesStay(w.creatures, w1.creatures, |w.events|, e);
        NegativesStay(w.objects, w1.objects, |w.events|, e);
        var next := NextCheck(w.events[id], now);
        SkippedEventsStay(w1, id + 1, now, if next < delay then next else delay, e);
      } else {
        SkippedEventsStay(w, id + 1, now, delay, e);
      }
    }
  }

  lemma NegativesStay(sp: Spawns, sp': Spawns, size: nat, e: nat)
    requires Untouched(sp, sp', size, e)
    ensures Tagged(sp', size, Negative(e)) <= sp'.grid <==> Tagged(sp, size, Negative(e)) <= sp.grid
  {
    assert Tagged(sp', size, Negative(e)) == Tagged(sp, size, Negative(e));
    forall guid <- Tagged(sp, size, Negative(e)) ensures guid in sp'.grid <==> guid in sp.grid {
      assert guid in Tagged(sp, size, e) + Tagged(sp, size, Negative(e));
    }
  }

  // ---------- finding the event of a guid ----------

  /** GetGameEventId: the first list that holds the guid; zero if there is none. */
  function GetGameEventIdFrom(sp: Spawns, size: nat, guid: nat, i: nat): int
    decreases |sp.guids| - i
  {
    if i >= |sp.guids| then 0
    else if guid in sp.guids[i] then i + 1 - size
    else GetGameEventIdFrom(sp, size, guid, i + 1)
  }

  /** With exclusive lists the lookup inverts the table index, for every signed event id. */
  lemma {:induction false} GameEventIdInvertsIndex(sp: Spawns, size: nat, guid: nat, eventId: int, i: nat)
    requires Exclusive(sp) && 0 <= Index(size, eventId) < |sp.guids| && guid in sp.guids[Index(size, eventId)]
    requires i <= Index(size, eventId)
    ensures GetGameEventIdFrom(sp, size, guid, i) == eventId
    decreases |sp.guids| - i
  {
    if i < Index(size, eventId) {
      GameEventIdInvertsIndex(sp, size, guid, eventId, i + 1);
    }
  }

  // ---------- the manager object ----------

  class Manager {
    var events: seq<GameEventData>
    var activeEvents: set<nat>
    var creatures: Spawns
    var objects: Spawns
    var isInit: bool

    ghost function Fields(): World
      reads this
    {
      World(events, activeEvents, creatures, objects, isInit)
    }

    constructor (events: seq<GameEventData>, creatures: Spawns, objects: Spawns)
      ensures Fields() == World(events, {}, creatures, objects, false)
    {
      this.events, this.activeEvents, this.creatures, this.objects, this.isInit :=
        events, {}, creatures, objects, false;
    }

    /** One table's part of GameEventSpawn (add) or GameEventUnspawn (remove). */
    static method MoveList(sp: Spawns, index: nat, eventId: int, add: bool) returns (sp': Spawns)
      requires index < |sp.guids|
      ensures var tagged := set guid | guid in sp.guids[index] && Concerned(sp, eventId, guid);
              sp' == sp.(grid := if add then sp.grid + tagged else sp.grid - tagged)
    {
      var list := sp.guids[index];
      sp' := sp;
      for i := 0 to |list|
        invariant var tagged := set guid | guid in list[..i] && Concerned(sp, eventId, guid);
                  sp' == sp.(grid := if add then sp.grid + tagged else sp.grid - tagged)
      {
        var guid := list[i];
        assert list[..i + 1] == list[..i] + [guid];
        if guid in sp.known && !(eventId < 0 && guid in sp.pooled) {
          sp' := sp'.(grid := if add then sp'.grid + {guid} else sp'.grid - {guid});
        }
      }
      assert list[..|list|] == list;
    }

    method GameEventSpawn(eventId: int)
      requires |creatures.guids| == |objects.guids|
      modifies this`creatures, this`objects
      ensures Fields() == Spawn(old(Fields()), eventId)
    {
      var index := |events| + eventId - 1;
      if index < 0 || index >= |creatures.guids| {
        return;
      }
      creatures := MoveList(creatures, index, eventId, true);
      objects := MoveList(objects, index, eventId, true);
    }

    method GameEventUnspawn(eventId: int)
      requires |creatures.guids| == |objects.guids|
      modifies this`creatures, this`objects
      ensures Fields() == Unspawn(old(Fields()), eventId)
    {
      var index := |events| + eventId - 1;
      if index < 0 || index >= |creatures.guids| {
        return;
      }
      creatures := MoveList(creatures, index, eventId, false);
      objects := MoveList(objects, index, eventId, false);
    }

    method Apply(id: nat)
      requires |creatures.guids| == |objects.guids|
      modifies this`activeEvents, this`creatures, this`objects
      ensures Fields() == ApplyNewEvent(old(Fields()), id)
    {
      activeEvents := activeEvents + {id};
      GameEventSpawn(id);
      GameEventUnspawn(Negative(id));
    }

    method UnApply(id: nat)
      requires |creatures.guids| == |objects.guids|
      modifies this`activeEvents, this`creatures, this`objects
      ensures Fields() == UnApplyEvent(old(Fields()), id)
    {
      activeEvents := activeEvents - {id};
      GameEventUnspawn(id);
      GameEventSpawn(Negative(id));
    }

    method Start(id: nat, overwrite: bool, now: int)
      requires |creatures.guids| == |objects.guids|
      modifies this
      ensures Fields() == StartEvent(old(Fields()), id, overwrite, now)
    {
      if id >= |events| || !events[id].IsValid() {
        return;
      }
      Apply(id);
      if overwrite {
        events := events[id := events[id].(start := now)];
        if events[id].end <= events[id].start {
          events := events[id := events[id].(end := events[id].start + events[id].length)];
        }
      }
    }

    method Stop(id: nat, overwrite: bool, now: int)
      requires |creatures.guids| == |objects.guids|
      modifies this
      ensures Fields() == StopEvent(old(Fields()), id, overwrite, now)
    {
      if id >= |events| || !events[id].IsValid() {
        return;
      }
      UnApply(id);
      if overwrite {
        events := events[id := events[id].(start := now - events[id].Duration())];
        if events[id].end <= events[id].start {
          events := events[id := events[id].(end := events[id].start + events[id].length)];
        }
      }
    }

    method Enable(id: nat, enable: bool, hardcodedListed: bool, now: int)
      requires |creatures.guids| == |objects.guids|
      modifies this
      ensures Fields() == EnableEvent(old(Fields()), id, enable, hardcodedListed, now)
    {
      if id >= |events| || !events[id].IsValid() || events[id].disabled == !enable {
        return;
      }
      events := events[id := events[id].(disabled := !enable)];
      if id !in activeEvents || hardcodedListed {
        return;
      }
      Stop(id, true, now);
    }

    /** The delay is in milliseconds. */
    method DoUpdate(now: int) returns (delay: nat)
      requires Periodic(Fields()) && WellFormed(Fields())
      modifies this
      ensures (Fields(), delay) == Update(old(Fields()), now)
      ensures WellFormed(Fields())
    {
      var nextEventDelay: nat := MAX_CHECK_DELAY;
      var id := 1;
      while id < |events|
        invariant Periodic(Fields()) && WellFormed(Fields()) && id >= 1
        invariant UpdateFrom(Fields(), id, now, nextEventDelay) == UpdateFrom(old(Fields()), 1, now, MAX_CHECK_DELAY)
        decreases |events| - id
      {
        if IsScheduled(events[id]) {
          UpdateOneEffect(Fields(), id, now);
          if CheckOneGameEvent(events[id], now) {
            if id !in activeEvents {
              Start(id, false, now);
            }
          } else if id in activeEvents {
            Stop(id, false, now);
          } else if !isInit {
            GameEventSpawn(Negative(id));
          }
          var calcDelay := NextCheck(events[id], now);
          if calcDelay < nextEventDelay {
            nextEventDelay := calcDelay;
          }
        }
        id := id + 1;
      }
      delay := (nextEventDelay + 1) * 1000;
    }

    method DoInitialize(now: int) returns (delay: nat)
      requires Periodic(Fields()) && WellFormed(Fields().(active := {})) && !isInit
      modifies this
      ensures (Fields(), delay) == Initialize(old(Fields()), now)
    {
      activeEvents := {};
      delay := DoUpdate(now);
      isInit := true;
    }
  }
}
