/** Which spawns the game event manager moves, over any run: in terms of the guid lists of the tables. */
module GameEventSpawns {
  import opened GameEventSchedule
  import opened GameEventMgr
  import opened Runs

  /** Guids with data of the list of +e are in the grid exactly while the event is active, those of -e that no pool
      owns exactly while it is not. */
  ghost predicate ListsFollow(sp: Spawns, size: nat, e: nat, active: bool) {
    && (0 <= size + e - 1 < |sp.guids| ==>
          forall guid <- sp.guids[size + e - 1] :: guid in sp.known ==> (guid in sp.grid <==> active))
    && (0 <= size - e - 1 < |sp.guids| ==>
          forall guid <- sp.guids[size - e - 1] ::
            guid in sp.known && guid !in sp.pooled ==> (guid in sp.grid <==> !active))
  }

  lemma FollowingLists(sp: Spawns, size: nat, e: nat, active: bool)
    requires Follows(sp, size, e, active) && e > 0
    ensures ListsFollow(sp, size, e, active)
  {
    if 0 <= size + e - 1 < |sp.guids| {
      forall guid <- sp.guids[size + e - 1] | guid in sp.known
        ensures guid in sp.grid <==> active
      {
        assert guid in Tagged(sp, size, e);
      }
    }
    if 0 <= size - e - 1 < |sp.guids| {
      forall guid <- sp.guids[size - e - 1] | guid in sp.known && guid !in sp.pooled
        ensures guid in sp.grid <==> !active
      {
        assert guid in Tagged(sp, size, Negative(e));
      }
    }
  }

  // ---------- what a run never changes ----------

  /** No event's list makes the manager move the guid: it has no data, or only negative events list it and a pool owns
      it. */
  predicate Idle(sp: Spawns, size: nat, guid: nat) {
    guid !in sp.known || forall k :: 0 <= k < |sp.guids| && guid in sp.guids[k] ==> k + 1 < size && guid in sp.pooled
  }

  /** The tables are the same, and idle guids are where they were. */
  ghost predicate IdleStay(a: Spawns, b: Spawns, size: nat) {
    && b == a.(grid := b.grid)
    && forall guid :: Idle(a, size, guid) ==> (guid in b.grid <==> guid in a.grid)
  }

  ghost predicate Undisturbed(a: World, b: World) {
    && |b.events| == |a.events|
    && IdleStay(a.creatures, b.creatures, |a.events|) && IdleStay(a.objects, b.objects, |a.events|)
  }

  lemma TaggedIsBusy(sp: Spawns, size: nat, eventId: int, guid: nat)
    requires guid in Tagged(sp, size, eventId)
    ensures !Idle(sp, size, guid)
  {
    assert guid in sp.guids[Index(size, eventId)];
  }

  lemma MovesLeaveIdle(sp: Spawns, size: nat, eventId: int)
    ensures IdleStay(sp, SpawnIn(sp, size, eventId), size)
    ensures IdleStay(sp, UnspawnIn(sp, size, eventId), size)
  {
    forall guid | Idle(sp, size, guid)
      ensures guid !in Tagged(sp, size, eventId)
    {
      if guid in Tagged(sp, size, eventId) { TaggedIsBusy(sp, size, eventId, guid); }
    }
  }

  lemma SpawningUndisturbs(w: World, eventId: int)
    ensures Undisturbed(w, Spawn(w, eventId)) && Undisturbed(w, Unspawn(w, eventId))
  {
    MovesLeaveIdle(w.creatures, |w.events|, eventId);
    MovesLeaveIdle(w.objects, |w.events|, eventId);
  }

  lemma StillUndisturbed(a: World, b: World, c: World)
    requires Undisturbed(a, b) && Undisturbed(b, c)
    ensures Undisturbed(a, c)
  {
    assert forall guid :: Idle(b.creatures, |a.events|, guid) == Idle(a.creatures, |a.events|, guid);
    assert forall guid :: Idle(b.objects, |a.events|, guid) == Idle(a.objects, |a.events|, guid);
  }

  lemma SwitchUndisturbs(w: World, id: nat)
    ensures Undisturbed(w, ApplyNewEvent(w, id)) && Undisturbed(w, UnApplyEvent(w, id))
  {
    var on, off := w.(active := w.active + {id}), w.(active := w.active - {id});
    SpawningUndisturbs(on, id);
    SpawningUndisturbs(Spawn(on, id), Negative(id));
    StillUndisturbed(on, Spawn(on, id), ApplyNewEvent(w, id));
    SpawningUndisturbs(off, id);
    SpawningUndisturbs(Unspawn(off, id), Negative(id));
    StillUndisturbed(off, Unspawn(off, id), UnApplyEvent(w, id));
  }

  lemma StartStopUndisturb(w: World, id: nat, overwrite: bool, now: int)
    ensures Undisturbed(w, StartEvent(w, id, overwrite, now)) && Undisturbed(w, StopEvent(w, id, overwrite, now))
  {
    SwitchUndisturbs(w, id);
  }

  lemma UpdateOneUndisturbs(w: World, id: nat, now: int)
    requires id < |w.events| && w.events[id].Usable()
    ensures Undisturbed(w, UpdateOne(w, id, now))
  {
    StartStopUndisturb(w, id, false, now);
    SpawningUndisturbs(w, Negative(id));
  }

  lemma {:induction false} UpdateUndisturbs(w: World, id: nat, now: int, delay: nat)
    requires Periodic(w) && WellFormed(w)
    ensures Undisturbed(w, UpdateFrom(w, id, now, delay).0)
    decreases |w.events| - id
  {
    if id < |w.events| {
      if IsScheduled(w.events[id]) {
        var next := NextCheck(w.events[id], now);
        var w1 := UpdateOne(w, id, now);
        UpdateOneEffect(w, id, now);
        UpdateOneUndisturbs(w, id, now);
        UpdateUndisturbs(w1, id + 1, now, if next < delay then next else delay);
        StillUndisturbed(w, w1, UpdateFrom(w, id, now, delay).0);
      } else {
        UpdateUndisturbs(w, id + 1, now, delay);
      }
    }
  }

  lemma EnableUndisturbs(w: World, id: nat, enable: bool, listed: bool, now: int)
    ensures Undisturbed(w, EnableEvent(w, id, enable, listed, now))
  {
    if IsValidEvent(w, id) && w.events[id].disabled != !enable {
      var w1 := w.(events := w.events[id := w.events[id].(disabled := !enable)]);
      StartStopUndisturb(w1, id, true, now);
    }
  }

  lemma StepUndisturbs(w: World, w': World)
    requires WellFormed(w) && Step(w, w')
    ensures Undisturbed(w, w')
  {
    var call: Call :| StepBy(w, call, w');
    match call
    case CallUpdate(now) => UpdateUndisturbs(w, 1, now, MAX_CHECK_DELAY);
    case CallStart(id, overwrite, now) => StartStopUndisturb(w, id, overwrite, now);
    case CallStop(id, overwrite, now) => StartStopUndisturb(w, id, overwrite, now);
    case CallEnable(id, enable, listed, now) => EnableUndisturbs(w, id, enable, listed, now);
  }

  lemma SwitchKeepsFit(w: World, id: nat, overwrite: bool, now: int)
    requires WellFormed(w)
    ensures WellFormed(StartEvent(w, id, overwrite, now)) && WellFormed(StopEvent(w, id, overwrite, now))
  {
    if IsValidEvent(w, id) {
      SwitchEffect(w, id, true);
      SwitchEffect(w, id, false);
    }
  }

  lemma StepKeepsFit(w: World, w': World)
    requires WellFormed(w) && Step(w, w')
    ensures WellFormed(w')
  {
    var call: Call :| StepBy(w, call, w');
    match call
    case CallUpdate(now) => UpdateFollowsSchedule(w, 1, now, MAX_CHECK_DELAY);
    case CallStart(id, overwrite, now) => SwitchKeepsFit(w, id, overwrite, now);
    case CallStop(id, overwrite, now) => SwitchKeepsFit(w, id, overwrite, now);
    case CallEnable(id, enable, listed, now) =>
      if IsValidEvent(w, id) && w.events[id].disabled != !enable {
        SwitchKeepsFit(w.(events := w.events[id := w.events[id].(disabled := !enable)]), id, true, now);
      }
  }

  ghost predicate StaysFit(a: World, b: World) { WellFormed(a) ==> WellFormed(b) && Undisturbed(a, b) }

  lemma StaysFitOn(a: World, b: World, c: World)
    requires StaysFit(a, b) && Step(b, c)
    ensures StaysFit(a, c)
  {
    if WellFormed(a) {
      StepKeepsFit(b, c);
      StepUndisturbs(b, c);
      StillUndisturbed(a, b, c);
    }
  }

  /** In every run the tables stay as they are, and guids without data, or that a pool owns and only negative events
      list, are neither spawned nor taken off the grid. */
  lemma IdleSpawnsStay(run: seq<World>, i: nat, j: nat)
    requires IsRun(run, (a, b) => Step(a, b)) && i <= j < |run| && WellFormed(run[i])
    ensures WellFormed(run[j]) && Undisturbed(run[i], run[j])
  {
    forall a, b, c | StaysFit(a, b) && Step(b, c)
      ensures StaysFit(a, c)
    {
      StaysFitOn(a, b, c);
    }
    Along(run, (a, b) => Step(a, b), (a, b) => StaysFit(a, b), i, j);
  }

  /** The same theorem as SpawnsFollowEvents, on the guid lists as they were loaded. */
  lemma ListedSpawnsFollow(start: World, now: int, run: seq<World>, j: nat, e: nat)
    requires WellFormed(start.(active := {})) && Exclusive(start.creatures) && Exclusive(start.objects)
    requires Periodic(start)
    requires forall i :: 0 < i < |start.events| ==> OffGrid(start, i)
    requires 0 < e < |start.events| && IsScheduled(start.events[e])
    requires j < |run| && run[0] == Initialize(start, now).0 && IsRun(run, (a, b) => Step(a, b))
    ensures var w := run[j];
            && |w.events| == |start.events|
            && w.creatures == start.creatures.(grid := w.creatures.grid)
            && w.objects == start.objects.(grid := w.objects.grid)
            && ListsFollow(w.creatures, |start.events|, e, e in w.active)
            && ListsFollow(w.objects, |start.events|, e, e in w.active)
  {
    SpawnsFollowEvents(start, now, run, j, e);
    InitialUndisturbs(start, now);
    InitializePlaces(start, now, e);
    IdleSpawnsStay(run, 0, j);
    var w := run[j];
    FollowingLists(w.creatures, |w.events|, e, e in w.active);
    FollowingLists(w.objects, |w.events|, e, e in w.active);
  }

  lemma InitialUndisturbs(start: World, now: int)
    requires WellFormed(start.(active := {})) && Periodic(start)
    ensures Undisturbed(start, Initialize(start, now).0)
  {
    var w0 := start.(active := {}, initialized := false);
    UpdateUndisturbs(w0, 1, now, MAX_CHECK_DELAY);
  }
}
