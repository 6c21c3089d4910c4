# Verified model of the game server's managers

This project models the self-contained algorithms and state machines of a game server and of its map
extractor, and proves what they keep. `dafny verify dfyconfig.toml` checks all of it.

Code that changes state step by step is modelled by classes and methods whose contracts tie the new state to
a function or relation of the old one; the theorems are then about that function and about runs of it.
Floats are reals. Random rolls, clocks, database rows, `acos` values and calls into code outside these files
are parameters. Fixed-width integers wrap where the wrapping matters: the loot counter and the liquid box are
bytes, ids have 32 bits, string positions 64.

| modules | what they model |
|---|---|
| `Basics` | types and notions that several models share |
| `Runs` | runs of a state machine, and induction along them |
| `HonorCurve`, `HonorRank`, `HonorMaintenance`, `HonorHarvest`, `HonorRuns`, `HonorLedger` | the weekly honor maintenance: the query of the week, the curve of a standing list, payment, decay, caps, any number of weeks, and the kills a player is shown |
| `AngleSelector`, `AngleGrid` | the search for a free angle around an object |
| `GameEventSchedule`, `GameEventMgr`, `GameEventSpawns` | the schedule of game events, the sleep until the next change, and the spawns in the grid |
| `Reputation` | reputation with spillover, guarded flags and the write-back cache |
| `Loot`, `LootLists`, `LootView`, `LootTemplate`, `LootExpansion` | loot lists and their shared counter, the view sent to a player and the slot resolver, templates with groups and references and their random expansion |
| `DumpText`, `DumpIds`, `DumpLoad`, `DumpReading`, `DumpRuns`, `DumpNames`, `DumpQuery` | character dumps: printing and parsing rows, new ids, the rewriting of each table, whole dumps, and the queries that collect rows |
| `Cameras` | cameras and view points |
| `InstanceLimit` | the limit on instances entered per hour |
| `ObjectGuids` | packing of guids and the generators of counters |
| `MapHeights`, `MapLayout` | height packing, the liquid box and the file layout of the map extractor |

## What the code does not do

Some properties one would expect fail. Each has its exact condition and, where it is not obvious, an input.

- A standing list whose second break point falls on a contribution of zero loses its best contribution from
  the curve (`HonorCurve.ScoresHaveShape`, `HonorCurve.ZeroTailLosesTheTop`).
- Rows of the last day of a week stay in the table for the "yesterday" of the honor tab, where the total of
  dishonorable kills counts them once more (`HonorLedger.LifetimeKills`, `HonorLedger.DishonorableTotalIsRight`,
  `HonorLedger.LastDayCountsTwice`).
- After InitializeAngle the small steps from the front do not look at the first used position: they may hit it
  (`AngleSelector.RestartedAnglesAreClear`, `AngleSelector.NearPointSearchIsClear`,
  `AngleSelector.FirstWalkMayHitAUsedPosition`). The only caller says that it passes angles from -pi to pi, but
  NormalizeOrientation yields 0 to 2 pi, so that all used positions are on one side.
- An event update that lands exactly on an event's start can sleep through the occurrence
  (`GameEventSchedule.SteadyUnlessAtStart`, `GameEventMgr.ABlindSpotCostsAnOccurrence`).
- A default war with a hidden faction that the player has ended comes back at the next login
  (`Reputation.SaveThenLoad`, `Reputation.EndedHiddenWarReturns`).
- An item added after the quest lists were filled can exceed the loot window (`Loot.AddItemFits`,
  `Loot.LateItemsOverflowTheWindow`).
- The unlooted counter is a byte: it is exact for up to fifteen looters, and for sixteen or more it can be wrong
  (`Loot.FifteenLootersAreExact`, `Loot.SixteenLootersWrap`).
- Some slots resolve that are not shown, among them items for everybody that the viewer has no entry of, and quest
  items whose entry is marked (`LootView.ResolvingSlotsAreShown`); and in group loot a conditional item is mostly
  shown with two different slot types (`LootView.GroupTypesAgree`).
- Quest items behind a reference may be denied by a question about the template's own store
  (`LootTemplate.OwnStoreAnswers`, `LootTemplate.OtherStoreHidesQuests`).
- Loading does not clamp standings: rows outside the range give totals outside it (`Reputation.LoadedInRange`).
- The dump parser recovers a row exactly if no value contains a quote or ends in a backslash; if the first quote
  from the first value on is an escaped one, it searches for ever (`DumpText.ValuesReadBack`,
  `DumpText.BackslashHangs`).
- A mail without a text is loaded referring to some new text, an item without one is not
  (`DumpRuns.DumpKeepsReferences`, `DumpRuns.MailAndItemTextsPart`). Texts of items are not collected at all,
  since the writer looks for them in the guid column (`DumpText.BareNumbersHaveNoTokens`).
- A pet row that repeats an id can show another number than the rows that refer to the pet, unless the pet row
  before it shows the same id and no row in between refers to another pet (`DumpRuns.PetsKeepTheirNumbers`,
  `DumpRuns.DumpKeepsItsPets`, `DumpRuns.RepeatedPetShowsAnother`).
- A query without any row ends a table, and the remaining ids are never asked for (`DumpQuery.AllIdsAreQueried`,
  `DumpQuery.AllRowsAreDumped`, `DumpQuery.EmptyBatchLosesRows`).
- The margin of 50 characters for the queries that collect rows is too small for table names of more than 13
  characters (`DumpQuery.ShortTablesFit`, `DumpQuery.MarginIsTooSmall`).
- A removed object keeps the cameras of players that are not in map themselves
  (`Cameras.EventRemovedFromWorld`).
- A limit of zero instances still lets one in (`InstanceLimit.ZeroLetsOneIn`).
- With a liquid type but no shown square the stored heights would be read from outside their array, unless
  flat liquids are not stored (`MapLayout.LiquidHeightsInBounds`).

## Model

| member | source | states |
|---|---|---|
| `HonorCurve.GetStandingCPByPosition` | src/game/HonorMgr.cpp:33-44 | The contribution at a position of the standing list, and zero past its end. |
| `HonorCurve.GenerateScores` | src/game/HonorMgr.cpp:381-475 | The whole curve of a standing list: break points, rank points and contributions are those of an independent, position-by-position definition. |
| `HonorCurve.BreakPointOrder` | src/game/HonorMgr.cpp:381-400 | Break points never grow from group to group, stay within the list, and the first two are at least 1 for a nonempty list. |
| `HonorCurve.TopGroupExists` | src/game/HonorMgr.cpp:421-470 | Some group from 2 to 14 is the top group: the first with an empty break point behind it, or the last. |
| `HonorCurve.ScoresHaveShape` | src/game/HonorMgr.cpp:381-475 | The curve rises up to the top group and is zero behind it; it reaches the best contribution exactly when the contribution at the second break point is positive (or nobody has any). |
| `HonorCurve.ZeroTailLosesTheTop` | src/game/HonorMgr.cpp:401-470 | Two players, the second with a contribution of zero: the best contribution never enters the curve, so the positivity of all contributions is needed. |
| `HonorCurve.CalculateRpEarning` | src/game/HonorMgr.cpp:477-490 | The loop and the interpolation compute the function the lemmas below are about; the search never reads before entry 0, and the divisor is positive. |
| `HonorCurve.SegmentBracket` | src/game/HonorMgr.cpp:477-490 | The segment found is the one that brackets the contribution. |
| `HonorCurve.EarningBounds` | src/game/HonorMgr.cpp:477-490 | Earnings lie between 0 and 13000, and at or above the best contribution they are exactly the top group's points. |
| `HonorCurve.EarningMonotone` | src/game/HonorMgr.cpp:477-490 | A larger contribution never earns fewer rank points, across all segments. |
| `HonorCurve.StandingOrderIsPaid` | src/game/HonorMgr.cpp:381-490 | From list to payment: players are paid in the order of their contributions, within the range, and the first gets the top group's points. |
| `HonorCurve.EarningOnLine` | src/game/HonorMgr.cpp:486-487 | Between two neighbouring entries of the curve, earnings lie on the straight line through both, stated without division. |
| `HonorCurve.EntryIsHalfway` | src/game/HonorMgr.cpp:437-459 | Below the top group an entry is halfway between the contributions of the player at the break point and the one behind, who counts as zero past the end of the list. |
| `HonorCurve.BreakPointIsNearest` | src/game/HonorMgr.cpp:421-423 | A break point is the whole number nearest to its share of the list. |
| `HonorCurve.TwoPlayersArePaid` | src/game/HonorMgr.cpp:381-490 | Contributions of 10 and 4 are paid 5000 and 640 points. |
| `HonorRank.RankBracketsPoints` | src/game/HonorMgr.cpp:870-930 | Positive points lie in the bracket of their rank exactly up to 65000; the visible rank is from 1 to 14. |
| `HonorRank.RankMonotone` | src/game/HonorMgr.cpp:891-930 | More points never show a lower rank, and different ranks have disjoint brackets. |
| `HonorRank.VisualRankOfPoints` | src/game/HonorMgr.cpp:891-930 | The visible rank of positive points is the first below 2000, then one for each 5000, up to 14. |
| `HonorRank.HonorBarFits` | src/game/HonorMgr.cpp:741-830 | The honor bar computed from the bracket divides by a positive width and fits its byte. |
| `HonorMaintenance.LevelCapMonotone` | src/game/HonorMgr.cpp:506-521 | The cap by level rises with the level, from 6500 to 65000. |
| `HonorMaintenance.DecayKeepsRange` | src/game/HonorMgr.cpp:492-504 | Decay and earning together keep points between 0 and 65000. |
| `HonorMaintenance.DecayMonotone` | src/game/HonorMgr.cpp:492-504 | Whoever earns more is never left with less. |
| `HonorMaintenance.DecayTakesAFifth` | src/game/HonorMgr.cpp:492-504 | A fifth of the points, up to rounding, has to be earned again: what is earned beyond it is gained in full, what is missing costs half of it, and 2500 at most. |
| `HonorMaintenance.LevelCapSteps` | src/game/HonorMgr.cpp:506-521 | The cap is 6500 up to level 29 and rises by the step of its bracket with each level, up to 65000 at level 60. |
| `HonorMaintenance.InactiveDecayNeverRaises` | src/game/HonorMgr.cpp:170-182 | A week without honor takes a tenth of the points up to a quarter of a point, or 2500 from 25002.5 on, and keeps whole tenths. |
| `HonorMaintenance.RoundingKeepsCaps` | src/game/HonorMgr.cpp:184-212 | Rounding to tenths on saving never lifts points over a whole-numbered cap. |
| `HonorMaintenance.RoundingIsNear` | src/game/HonorMgr.cpp:202-209 | Rounding to tenths on saving changes a value by a twentieth at most. |
| `HonorMaintenance.SortKeeps` | src/game/HonorMgr.cpp:103-134 | Sorting a list orders it and keeps exactly its members. |
| `HonorMaintenance.HonorMaintenancer.LoadWeeklyScores` | src/game/HonorMgr.cpp:85-100 | Each character of the query result gets the score made of its row and its harvest, and nobody else. |
| `HonorMaintenance.HonorMaintenancer.LoadStandingLists` | src/game/HonorMgr.cpp:103-134 | Every scored character lands in exactly one of the three lists, and the two paid lists are sorted. |
| `HonorMaintenance.HonorMaintenancer.DistributeRankPoints` | src/game/HonorMgr.cpp:136-168 | Everybody on the list is paid, decayed and capped by position; nobody else changes. |
| `HonorMaintenance.HonorMaintenancer.InactiveDecayRankPoints` | src/game/HonorMgr.cpp:170-182 | Exactly the inactive list decays. |
| `HonorMaintenance.HonorMaintenancer.FlushRankPoints` | src/game/HonorMgr.cpp:184-212 | Scored rows are written back rounded, with the week noted as the last one and its kills added to the stored ones; all other rows only lose their standing; exactly the contributions since the last day of the week stay in the table. |
| `HonorMaintenance.HonorMaintenancer.SetMaintenanceDays` | src/game/HonorMgr.cpp:540-550 | The next day is a week after the last one, but for a next day that is passed, which is not stored. |
| `HonorMaintenance.HonorMaintenancer.CheckMaintenanceDay` | src/game/HonorMgr.cpp:523-538 | The marker is set from the next maintenance day on, and stays set. |
| `HonorMaintenance.HonorMaintenancer.DoMaintenance` | src/game/HonorMgr.cpp:214-240 | Without the marker nothing changes; with it the five phases make the week that the relation WeekStep describes, old contributions go, the marker is taken off, and the next week begins on the day that was next. |
| `HonorMaintenance.WeekAddsUp` | src/game/HonorMgr.cpp:214-240 | Loading, two payments, decay and flush compose to one week: each row follows from its own score and earnings are fair. |
| `HonorMaintenance.EarningsAreFair` | src/game/HonorMgr.cpp:136-168 | Earnings of active characters lie in [0, 13000] and follow contributions within each team. |
| `HonorMaintenance.WeekIsRanked` | src/game/HonorMgr.cpp:136-168 | The standings written back are the positions within the team: none is left out or given twice, and more contribution means a smaller one. |
| `HonorHarvest.GroupSum` | src/game/HonorMgr.cpp:67-81 | The UNION merges equal rows; the sums over a character's merged rows are nevertheless the plain counts and sums over its rows of the week. |
| `HonorHarvest.QueryIsTally` | src/game/HonorMgr.cpp:67-81 | The query yields exactly the characters with a row of the week or with rank points, each with the numbers of its honorable and dishonorable kills and the sum of all its contributions but those of dishonorable kills. |
| `HonorHarvest.HarvestIsPositive` | src/game/HonorMgr.cpp:67-81 | Where no contribution is negative, the result is one a maintenance can work on. |
| `HonorRuns.RowStaysInRange` | src/game/HonorMgr.cpp:136-212 | One week keeps a row in [0, 65000], within its level cap if it was, and raises it only for active players. |
| `HonorRuns.HighestRankNeverDrops` | src/game/HonorMgr.cpp:184-212 | The stored highest rank shows the better of the old one and that of this week's points, and without a score the old one. |
| `HonorRuns.RunsKeepHonor` | src/game/HonorMgr.cpp:214-240 | Over every run of weeks points stay in [0, 65000], points within the level cap stay there, and no highest rank drops. |
| `HonorRuns.OnlyActivityRaises` | src/game/HonorMgr.cpp:136-212 | Points rise in a week only for a harvested, active character, and then not over the cap. |
| `HonorLedger.HonorMgr.Update` | src/game/HonorMgr.cpp:741-806 | The lifetime totals of a player: the stored kills, the honorable ones since the first day of the week, and all dishonorable ones in the table. |
| `HonorLedger.WeekIsStored` | src/game/HonorMgr.cpp:67-81 | A maintenance adds the kills of its week to the stored ones of every character, whether the query finds it or not. |
| `HonorLedger.RunKeepsBooks` | src/game/HonorMgr.cpp:184-240 | In every run of play, days and maintenances the table holds exactly the rows recorded since the day before the week, and the stored kills are those recorded before the week. |
| `HonorLedger.LifetimeKills` | src/game/HonorMgr.cpp:741-806 | In every run each honorable kill counts exactly once in the lifetime total, before and after any maintenance; a dishonorable one counts twice if it was on the last day before the current week. |
| `HonorLedger.DishonorableTotalIsRight` | src/game/HonorMgr.cpp:786-791 | The total of dishonorable kills is right exactly if none was on that day. |
| `HonorLedger.LastDayCountsTwice` | src/game/HonorMgr.cpp:210-211 | One dishonorable kill on the seventh day, a maintenance the day after: the player is shown two. |
| `HonorLedger.HarvestIsFinal` | src/game/HonorMgr.cpp:62-76 | The scores of a due maintenance tally all rows of its week that are ever recorded: none is deleted before, none comes after. |
| `AngleSelector.SearchProgress` | src/game/ObjectPosSelector.h:78-134 | Every try while the search is on makes progress in a lexicographic measure of phases and small steps. |
| `AngleSelector.AngleCosts` | src/game/ObjectPosSelector.cpp:92-104 | Each angle delivered lowers one number; a search that fails is over. |
| `AngleSelector.FinitelyManyAngles` | src/game/ObjectPosSelector.cpp:92-158 | A caller that keeps asking gets finitely many angles, with an explicit bound. |
| `AngleSelector.RestartedAnglesAreClear` | src/game/ObjectPosSelector.cpp:70-158 | However often NextAngle is called after InitializeAngle, its angles keep clear of the used position ahead exactly if on either side the last small step from the front does, given what is still watched there. |
| `AngleSelector.WalkClearByLastStep` | src/game/ObjectPosSelector.h:111-141 | A walk of small steps from the front stays clear exactly if its last step does, and the last step is the largest number of steps within half a turn and within the watched position. |
| `AngleSelector.NearPointSearchIsClear` | src/game/Objects/Object.cpp:2148-2221 | The search as its only caller runs it (used positions on one side, FirstAngle, InitializeAngle, NextAngle): the exact condition on the first and the last used position under which no angle delivered collides with the position ahead. |
| `AngleSelector.FirstWalkMayHitAUsedPosition` | src/game/ObjectPosSelector.cpp:70-80 | A used position that neither a fresh search nor one after FirstAngle watches: the second angle lies on top of it. |
| `AngleSelector.ObjectPosSelector.AddUsedPos` | src/game/ObjectPosSelector.cpp:62-68 | The position goes into the list of its side, in order of its angle; the cursors keep their entries, and one at the end stays there. |
| `AngleSelector.CursorKeepsEntry` | src/game/ObjectPosSelector.cpp:62-68 | An insertion leaves a cursor at its entry or at the end. |
| `AngleSelector.ObjectPosSelector.InitializeAngle` | src/game/ObjectPosSelector.cpp:70-80 | Cursors and small steps start over; the remembered next positions stay. |
| `AngleSelector.ObjectPosSelector.NextUsedPos` | src/game/ObjectPosSelector.cpp:45-60 | The position next in a direction, the last of the other list at the end. |
| `AngleSelector.ObjectPosSelector.FirstAngle` | src/game/ObjectPosSelector.cpp:82-90 | With positions on one side only, the first of them opens the other side. |
| `AngleSelector.ObjectPosSelector.NextPosibleAngle` | src/game/ObjectPosSelector.cpp:119-158 | One try, in the direction and phase the cursors prescribe. |
| `AngleSelector.ObjectPosSelector.NextAngleLoop` | src/game/ObjectPosSelector.cpp:92-104 | The loop ends, and its outcome is that of the recursive search. |
| `AngleSelector.ObjectPosSelector.NextUsedAngleLoop` | src/game/ObjectPosSelector.cpp:106-117 | The same for the loop over used positions. |
| `AngleGrid.RestartedAnglesOnGrid` | src/game/ObjectPosSelector.cpp:70-158 | Each angle NextAngle delivers after InitializeAngle is a whole number of small steps from the front, or from the point beside the used position at the cursor that is as far from it as it keeps free. |
| `AngleGrid.GridIsClearBehind` | src/game/ObjectPosSelector.h:79-101 | So it keeps clear of the position behind. |
| `AngleGrid.FirstAngleIsBeside` | src/game/ObjectPosSelector.cpp:82-90 | With positions on one side only, FirstAngle tries the angle beside the first of them on the other side, as far from it as it keeps free, and fails exactly if that is not clear of the position watched. |
| `AngleGrid.UsedAngleIsFirstMiss` | src/game/ObjectPosSelector.cpp:106-117 | NextUsedAngle delivers the angle of the first try that fails, and nothing if none does before both cursors are at the end. |
| `AngleGrid.NextUsedIsNearest` | src/game/ObjectPosSelector.cpp:45-60 | The position watched is the nearest one ahead: the next on the own side, else the first met on the other side. |
| `GameEventSchedule.SteadyUnlessAtStart` | src/game/GameEventMgr.cpp:38-72 | The event's state is constant until the next check exactly outside one moment: the instant it starts. |
| `GameEventSchedule.OnDuringOccurrences` | src/game/GameEventMgr.cpp:38-46 | An event is on exactly while one of its occurrences lasts, strictly between its start and its end. |
| `GameEventSchedule.EventRecurs` | src/game/GameEventMgr.cpp:38-46 | Between start and end the answer is the same in every period. |
| `GameEventSchedule.OnInFirstPeriod` | src/game/GameEventMgr.cpp:38-46 | In the first period an event is on exactly while the first occurrence lasts. |
| `GameEventSchedule.SleepIsLongest` | src/game/GameEventMgr.cpp:48-72 | The next check is no sooner than needed: it is the start, a change of the answer, or the end. |
| `GameEventSchedule.BlindSpotIsUnsteady` | src/game/GameEventMgr.cpp:48-72 | At its start an event is off, on one second later, and the next check is later than that. |
| `GameEventSpawns.ListedSpawnsFollow` | src/game/GameEventMgr.cpp:645-925 | SpawnsFollowEvents on the guid lists as they were loaded: guids with data listed for +e are in the grid exactly while e is active, those listed for -e that no pool owns exactly while it is not. |
| `GameEventSpawns.IdleSpawnsStay` | src/game/GameEventMgr.cpp:773-925 | In every run the tables stay as they are, and guids without data, or that a pool owns and only negative events list, are neither spawned nor taken off the grid. |
| `GameEventMgr.UpdateFollowsSchedule` | src/game/GameEventMgr.cpp:681-729 | After an update every scheduled event is active exactly if its schedule says so, no other has changed, and the delay is no longer than any event's next check. |
| `GameEventMgr.LagIsOneSecond` | src/game/GameEventMgr.cpp:681-729 | Until one second before the returned delay is over, an event outside its blind spot is active exactly if its schedule says so. |
| `GameEventMgr.UpdatedEvents` | src/game/GameEventMgr.cpp:681-729 | An update leaves hardcoded and disabled events, and event 0, as they are; all others are on afterwards exactly if their schedule says so. |
| `GameEventMgr.DelayIsSomeCheck` | src/game/GameEventMgr.cpp:681-729 | The delay returned is the longest one or the next check of some event. |
| `GameEventMgr.OverwrittenStart` | src/game/GameEventMgr.cpp:93-98 | A start with new dates puts the event on schedule from the next second on, exactly if it has not ended by then and its length does not wrap to nothing; an end that lies ahead stays. |
| `GameEventMgr.OverwrittenStop` | src/game/GameEventMgr.cpp:109-114 | A stop with new dates takes the event off schedule at once, exactly if it does not last as long as its period, has no length, or is over. |
| `GameEventMgr.EnableStops` | src/game/GameEventMgr.cpp:117-154 | Enabling or disabling stops an active event unless nothing changes or it has a hardcoded handler; it starts nothing and concerns no other event. |
| `GameEventMgr.ABlindSpotCostsAnOccurrence` | src/game/GameEventMgr.cpp:48-72 | An update that lands on an event's start sleeps through an occurrence of ten minutes. |
| `GameEventMgr.SwapSpawns` | src/game/GameEventMgr.cpp:773-925 | Starting or stopping an event puts its own guids in place and moves nobody else's. |
| `GameEventMgr.StartPlaces` | src/game/GameEventMgr.cpp:74-99 | Starting an event puts its spawns in place. |
| `GameEventMgr.StopPlaces` | src/game/GameEventMgr.cpp:101-115 | Stopping an event puts its spawns in place. |
| `GameEventMgr.FirstUpdatePlaces` | src/game/GameEventMgr.cpp:681-729 | The first update puts every scheduled event in place. |
| `GameEventMgr.InitializePlaces` | src/game/GameEventMgr.cpp:645-669 | Initialization does, if positive guids start off the grid. |
| `GameEventMgr.SpawnsFollowEvents` | src/game/GameEventMgr.cpp:645-925 | In every run after initialization guids of +e are in the grid exactly while e is active, and unpooled guids of -e exactly while it is not. |
| `GameEventMgr.SkippedEventsStay` | src/game/GameEventMgr.cpp:681-729 | An event not scheduled at the start is in place afterwards exactly if its negative guids already were in the grid. |
| `GameEventMgr.GameEventIdInvertsIndex` | src/game/GameEventMgr.cpp:1031-1050 | The lookup of a guid's signed event inverts the index of the spawn table. |
| `GameEventMgr.Manager.GameEventSpawn` | src/game/GameEventMgr.cpp:773-848 | Adds the event's guids to the grid, unpooled ones only for negative events. |
| `GameEventMgr.Manager.GameEventUnspawn` | src/game/GameEventMgr.cpp:850-925 | Takes the guids listed for the event off the grid; pooled ones of a negative event stay. |
| `GameEventMgr.Manager.Enable` | src/game/GameEventMgr.cpp:117-154 | Changes the flag. If it changes and the event is active and not hardcoded, the event is stopped with overwrite; nothing is ever started here. |
| `GameEventMgr.Manager.DoUpdate` | src/game/GameEventMgr.cpp:681-729 | The loop over all events, and the delay in milliseconds. |
| `GameEventMgr.Manager.DoInitialize` | src/game/GameEventMgr.cpp:645-669 | Initialization runs an update from an empty active set. |
| `Reputation.ReputationToRank` | src/game/ReputationMgr.cpp:28-38 | The loop from the top finds the rank of a standing. |
| `Reputation.RanksPartition` | src/game/ReputationMgr.cpp:26-38 | The eight intervals partition exactly the standings from -42000 to 42999. |
| `Reputation.SetReputationMoves` | src/game/ReputationMgr.cpp:222-281 | Target and eligible spillovers end clamped, hostile ones at war unless peace is forced; every other faction keeps standing, flags and save mark. |
| `Reputation.SetReputationBounds` | src/game/ReputationMgr.cpp:222-281 | Base plus standing of every faction stays in [-42000, 42999]. |
| `Reputation.SetReputationHitsTarget` | src/game/ReputationMgr.cpp:222-281 | A target that is no spillover of itself ends at the new total, changed only where it is out of range. |
| `Reputation.SpilloverAmount` | src/game/ReputationMgr.cpp:226-240 | A faction other than the target that one slot alone names, and that is eligible, ends at its old total plus standing times rate, rounded towards zero (or at that alone), changed only where it is out of range. |
| `Reputation.PeaceIsForced` | src/game/ReputationMgr.cpp:304-351 | A forced peace ends only for a standing below -6000; a player may declare war on and make peace with every other faction that is not concealed. |
| `Reputation.SaveThenLoad` | src/game/ReputationMgr.cpp:381-453 | Saved and loaded again, standing, visibility and fixed bits come back; AT_WAR and INACTIVE exactly under conditions on the saved flags and defaults. |
| `Reputation.OrdinaryWarSurvives` | src/game/ReputationMgr.cpp:381-433 | AT_WAR comes back for every visible faction that is not peace-forced and ranks above Hostile. |
| `Reputation.EndedHiddenWarReturns` | src/game/ReputationMgr.cpp:381-433 | A hidden default war that the player ended is back after the next login. |
| `Reputation.LoadedIsCached` | src/game/ReputationMgr.cpp:381-433 | Rows of any content load into a faithful cache of the table. |
| `Reputation.SaveMakesEqual` | src/game/ReputationMgr.cpp:435-453 | After saving every faction equals its row and carries no mark. |
| `Reputation.RunsStayFaithful` | src/game/ReputationMgr.cpp:304-453 | In every run a faction without the save mark equals its database row. |
| `Reputation.LoadedInRange` | src/game/ReputationMgr.cpp:381-453 | Loading does not clamp: the loaded totals are within [-42000, 42999] exactly if the rows (or bases without a row) are. |
| `Reputation.RunsStayInRange` | src/game/ReputationMgr.cpp:222-453 | In every run from totals and rows within the range, every total stays within it. |
| `Reputation.SaveThenLoadAll` | src/game/ReputationMgr.cpp:381-453 | The round trip for all factions of a character at once. |
| `Reputation.ReputationMgr.SetOneFactionReputation` | src/game/ReputationMgr.cpp:252-281 | One faction's clamped standing, flags and marks. |
| `Reputation.ReputationMgr.ChangeReputation` | src/game/ReputationMgr.cpp:222-250 | Spillovers first, in template order, then the target. |
| `Reputation.ReputationMgr.AtWar` | src/game/ReputationMgr.cpp:321-351 | The guarded war flag. |
| `Reputation.ReputationMgr.Initialize` | src/game/ReputationMgr.cpp:199-220 | Every faction with a list id starts from its defaults. |
| `Reputation.ReputationMgr.LoadFromDB` | src/game/ReputationMgr.cpp:381-433 | Rows are applied to the defaults with the guards of the flag setters. |
| `Reputation.ReputationMgr.SaveToDB` | src/game/ReputationMgr.cpp:435-453 | Exactly the marked factions are written, and unmarked. |
| `Loot.RunsBalance` | src/game/LootMgr.cpp:427-624 | After any additions and fills the unlooted counter equals what is outstanding, modulo a byte, and all lists are strictly increasing and in range. |
| `Loot.FillBalances` | src/game/LootMgr.cpp:510-624 | Filling a player's lists keeps the counter balanced. |
| `Loot.AddItemFits` | src/game/LootMgr.cpp:427-449 | Adding an item keeps items plus quest list within 16 for everybody exactly if no list is full already. |
| `Loot.LateItemsOverflowTheWindow` | src/game/LootMgr.cpp:427-449 | A run from the empty loot (a quest item, fifteen items, a looter who is given the quest item, one item more) ends with seventeen slots for that looter. |
| `Loot.FillFits` | src/game/LootMgr.cpp:510-624 | Filling never exceeds the window. |
| `Loot.FillRunsFit` | src/game/LootMgr.cpp:451-497 | In the order of FillLoot the window holds for all players. |
| `Loot.FifteenLootersAreExact` | src/game/LootMgr.cpp:510-622 | In every run, while the lists fit the window, the byte counter is exact for up to fifteen looters. |
| `Loot.SixteenLootersWrap` | src/game/LootMgr.cpp:427-554 | For every number of looters from sixteen on some run (sixteen items added, then the looters served) ends with 16 * k entries outstanding and a counter of 16 * k modulo 256: with sixteen it is zero and 256 entries are outstanding. |
| `Loot.LootObject.Add` | src/game/LootMgr.cpp:427-449 | Appends to the items or quest items while there is room, and counts unconditional shared ones. |
| `Loot.LootObject.FillFFALoot` | src/game/LootMgr.cpp:530-554 | The player's free-for-all list and the counter. |
| `Loot.LootObject.FillQuestLoot` | src/game/LootMgr.cpp:556-592 | Claims quest items in order until the window is full, blocking each. |
| `Loot.LootObject.FillConditionalLoot` | src/game/LootMgr.cpp:594-624 | The player's conditional list; each item is counted once. |
| `Loot.LootObject.FillFor` | src/game/LootMgr.cpp:510-528 | The three lists, each only once per player. |
| `LootView.ShownSlotsResolve` | src/game/LootMgr.cpp:704-949 | Every slot printed, under any permission, resolves to the very item printed. |
| `LootView.ShownFitsBytes` | src/game/LootMgr.cpp:784-949 | No view has more than 80 entries, and every slot is below 48: count and slots fit bytes. |
| `LootView.SlotsRepeatByConditions` | src/game/LootMgr.cpp:784-949 | Under an open permission some slot is shown twice exactly if the conditional part is not empty. |
| `LootView.ShownSlots` | src/game/LootMgr.cpp:784-949 | Under an open permission exactly those slots are shown whose item is there for the viewer: not looted, and shared and allowed, or in the own list and not taken. |
| `LootView.SlotResolves` | src/game/LootMgr.cpp:704-765 | A slot resolves to its own item or to nothing: by the own entry's mark for an item for everybody that is listed, and otherwise exactly if the item is not looted. |
| `LootView.ResolvingSlotsAreShown` | src/game/LootMgr.cpp:704-949 | The converse of ShownSlotsResolve: under an open permission a slot resolves exactly if it is shown or one of the listed exceptions, which are never shown. |
| `LootView.SharedPartShows` | src/game/LootMgr.cpp:800-870 | Under any permission a shared item is shown exactly if it is not looted, allowed, and in the viewer's turn, blocked or at the threshold as the permission asks. |
| `LootView.SlotTypesShown` | src/game/LootMgr.cpp:784-949 | An owner may take all that is shown; for others the own parts are locked, and shared items have the type of the permission. |
| `LootView.GroupTypesAgree` | src/game/LootMgr.cpp:403-420 | In group loot the two slot types of a conditional item agree exactly if it is under the threshold and not rolled for. |
| `LootView.Print` | src/game/LootMgr.cpp:784-949 | The count byte equals the number of entries written. |
| `LootView.PrintShared` | src/game/LootMgr.cpp:784-870 | The switch over permissions and its loops over shared items. |
| `LootView.Resolve` | src/game/LootMgr.cpp:704-765 | The item in a slot for a player. |
| `LootView.SearchMark` | src/game/LootMgr.cpp:704-765 | The search of the player's list stops at the first entry of that slot. |
| `LootLists.LooterIsGivenLists` | src/game/LootMgr.cpp:510-624 | A looter in the world who comes to a loot gets a list of exactly the items for everybody, one of exactly the conditional items, and one of exactly the quest items that looter may take, the last as far as the window reaches; listed quest items are blocked, listed conditional ones counted, and nobody else's lists change. |
| `LootLists.ListsAreMadeOnce` | src/game/LootMgr.cpp:510-528 | A looter who has all lists keeps them, and one who is not in the world is given none. |
| `LootLists.AddedItemIsEntry` | src/game/LootMgr.cpp:338-354 | An added entry is appended, unmarked, to the list it belongs to, if there is room. |
| `LootExpansion.Process` | src/game/LootMgr.cpp:1179-1213 | The drops are a possible outcome of the template, and the loot is the old one with these drops added in order; terminates for all rolls. |
| `LootExpansion.CallIsFrom` | src/game/LootMgr.cpp:1179-1213 | Nothing is dropped that the template does not supply, and counts lie between the least and the most. |
| `LootExpansion.CallDrops` | src/game/LootMgr.cpp:1179-1213 | Every certain entry, also of templates that certain references name, drops as often as references repeat it; and nothing drops more often than all entries with a chance allow. |
| `LootExpansion.CertainEntryDrops` | src/game/LootMgr.cpp:1192-1207 | Every plain entry with a chance of 100 is dropped. |
| `LootExpansion.CertainItemIsAdded` | src/game/LootMgr.cpp:427-449 | What is sure to drop has an item made from it among the new ones, or the list it belongs to is full. |
| `LootExpansion.AddAllAppends` | src/game/LootMgr.cpp:427-449 | Drops are appended in order, as many as there is room for, and players' lists stay. |
| `LootExpansion.AddAllGrows` | src/game/LootMgr.cpp:427-449 | Expansion keeps 16 items and 32 quest items, adds only what is supplied, and keeps the counter balanced. |
| `LootExpansion.GroupAlwaysYields` | src/game/LootMgr.cpp:1024-1066 | A group yields an item for every roll exactly if its chances come to 100 or one of them does, or some equal-chanced item suits the looters. |
| `LootExpansion.Expand` | src/game/LootMgr.cpp:451-497 | From an acyclic store all of this holds, and a template without quest drops adds no quest item. |
| `LootTemplate.AddEntryFiles` | src/game/LootMgr.cpp:1166-1176 | An entry lands in its group or among the entries, nothing is lost, and no reference gets into a group. |
| `LootTemplate.PickIsInterval` | src/game/LootMgr.cpp:1024-1066 | A roll picks an item exactly if it falls into that item's interval of the running sum. |
| `LootTemplate.RollGroup` | src/game/LootMgr.cpp:1024-1066 | A group yields what its roll falls on, or any suitable equal-chanced item. |
| `LootTemplate.SuppliesOnlyFromEntries` | src/game/LootMgr.cpp:1179-1213 | What a template supplies comes from its entries, groups or references. |
| `LootTemplate.AcyclicIsShallow` | src/game/LootMgr.cpp:1179-1213 | Without cycles no path of references is longer than the store. |
| `LootTemplate.CyclesAreBottomless` | src/game/LootMgr.cpp:1179-1213 | A cycle allows paths of every length. |
| `LootTemplate.HasQuestDrop` | src/game/LootMgr.cpp:1216-1245 | The answer is yes exactly if a quest item is reachable through entries, groups and references, whatever its chance. |
| `LootTemplate.OwnStoreAnswers` | src/game/LootMgr.cpp:196-204 | The answer about a template's own store is right for every reference store exactly if the template drops a quest item by itself or has no references, and never denies one that drops exactly if it is yes or there are no references. |
| `LootTemplate.OtherStoreHidesQuests` | src/game/LootMgr.cpp:196-204 | Asked about its own store only, a template denies a quest item that it drops by reference. |
| `DumpText.DumpLine.FindNth` | src/game/PlayerDump.cpp:92-118 | The position of the n-th value, that it is missing, or that the search never ends. |
| `DumpText.DumpLine.GetTableName` | src/game/PlayerDump.cpp:120-128 | The text between the first two backticks. |
| `DumpText.DumpLine.ChangeNth` | src/game/PlayerDump.cpp:130-144 | Replaces, inserts or leaves the n-th value. |
| `DumpText.DumpLine.FindTokNth` | src/game/PlayerDump.cpp:69-81 | The n-th token that a blank ends. |
| `DumpText.DumpLine.ChangeTokNth` | src/game/PlayerDump.cpp:155-168 | Replaces, inserts or leaves the n-th token. |
| `DumpText.CreateDumpString` | src/game/PlayerDump.cpp:207-232 | Prints a row, column by column. |
| `DumpText.PrintsRowText` | src/game/PlayerDump.cpp:207-232 | Without NULL columns the output is the row text of the parser lemmas. |
| `DumpText.TableNameReadsBack` | src/game/PlayerDump.cpp:120-128 | The table name of a printed row reads back. |
| `DumpText.ValuesReadBack` | src/game/PlayerDump.cpp:92-153 | All values of a printed row read back exactly if none contains a quote or ends in a backslash. |
| `DumpText.NoValuePastTheEnd` | src/game/PlayerDump.cpp:92-118 | Past the last value nothing is found. |
| `DumpText.ChangePrintsChangedRow` | src/game/PlayerDump.cpp:130-144 | Changing the n-th value of a printed row gives the printed row with that value changed, and nothing else. |
| `DumpText.BackslashHangs` | src/game/PlayerDump.cpp:98-104 | findnth never returns exactly if the first quote from the first value on, its own or the closing one, is escaped: the value ends in a backslash, or has an escaped quote before any other. |
| `DumpText.MissingListIsSearchedAnyway` | src/game/PlayerDump.cpp:94-96 | The test for a missing value list never fires. |
| `DumpText.TokensReadBack` | src/game/PlayerDump.cpp:69-90 | The n-th of blank-terminated tokens reads back. |
| `DumpText.BareNumbersHaveNoTokens` | src/game/PlayerDump.cpp:271-278 | A bare number has no token, so the texts of items are never collected from the guid column. |
| `DumpIds.PrintedIdReads` | src/game/PlayerDump.cpp:181-192 | Every 32-bit id survives being printed with %d and read with atoi. |
| `DumpIds.PrintedIdFits` | src/game/PlayerDump.cpp:181-192 | A printed id is harmless in a row and fits the 20-character buffers. |
| `DumpIds.RegisterNewGuid` | src/game/PlayerDump.cpp:170-179 | The new id of an old one, the next free id plus the number of ids so far. |
| `DumpIds.RegisteringKeepsBijection` | src/game/PlayerDump.cpp:170-179 | Registering keeps the one-to-one map onto a contiguous range and changes no id given before. |
| `DumpLoad.WriterAndReaderAgree` | src/game/PlayerDump.cpp:282-376 | Whatever ids the writer collects from a column, or asks for rows by, the reader gives new ones of that kind in the same column. |
| `DumpLoad.ChangeOnRow` | src/game/PlayerDump.cpp:130-144 | Rewriting a value in the text of a line is rewriting it in the row the line shows. |
| `DumpLoad.DataSteps` | src/game/PlayerDump.cpp:559-712 | Columns that hold plain data stay as they are. |
| `DumpLoad.RowStepDone` | src/game/PlayerDump.cpp:559-712 | Loading a row leaves each cell as its role prescribes and gives at most one id a cell. |
| `DumpLoad.ReferencesPreserved` | src/game/PlayerDump.cpp:170-192 | Two loaded references agree exactly if the originals did, unless both are 0 and only one column keeps its zero. |
| `DumpLoad.NewIdsAreFree` | src/game/PlayerDump.cpp:170-192 | Every new id lies between the next free id and the value the generator is set to. |
| `DumpLoad.MailsGainTexts` | src/game/PlayerDump.cpp:677-685 | A mail without text is loaded with a reference to a new text. |
| `DumpLoad.CountingNumbersDiffer` | src/game/ObjectMgr.cpp:5973-5977 | A generator that counts up hands out different numbers, short of overflow. |
| `DumpLoad.NewPetIsNoted` | src/game/PlayerDump.cpp:636-659 | A pet met for the first time is noted under the number its row shows, which no other pet has. |
| `DumpLoad.PetMetAgain` | src/game/PlayerDump.cpp:636-675 | A pet met again stays noted under its first number. Its row shows a new number, which no pet is noted under, unless the pet row before shows the same id: then it shows the number written last, whosever it is. |
| `DumpReading.RowIsNoRemark` | src/game/PlayerDump.cpp:515-531 | A printed row is never taken for a blank line, a note or the version check. |
| `DumpReading.DumpReader.ChangeGuid` | src/game/PlayerDump.cpp:181-192 | Replaces an id in a line by its new one, unless it is a zero to be kept. |
| `DumpReading.DumpReader.LoadCharTable` | src/game/PlayerDump.cpp:561-564 | The guid of a character table. |
| `DumpReading.DumpReader.LoadCharacter` | src/game/PlayerDump.cpp:566-595 | Guid, account and name of the character, and the forced renaming where the name is taken, as the steps of the row prescribe; what they come to for a dump is CharactersAreNamed. |
| `DumpReading.DumpReader.LoadInventory` | src/game/PlayerDump.cpp:597-606 | Guid, bag and item. |
| `DumpReading.DumpReader.LoadItem` | src/game/PlayerDump.cpp:608-617 | Item, owner and text. |
| `DumpReading.DumpReader.LoadItemGift` | src/game/PlayerDump.cpp:619-625 | Guid and wrapped item. |
| `DumpReading.DumpReader.LoadItemLoot` | src/game/PlayerDump.cpp:627-634 | Item and owner. |
| `DumpReading.DumpReader.LoadPet` | src/game/PlayerDump.cpp:636-659 | The pet's number and owner. |
| `DumpReading.DumpReader.LoadPetTable` | src/game/PlayerDump.cpp:661-675 | The number of a pet already loaded, or failure. |
| `DumpReading.DumpReader.LoadMail` | src/game/PlayerDump.cpp:677-685 | Mail, receiver and text. |
| `DumpReading.DumpReader.LoadMailItem` | src/game/PlayerDump.cpp:687-695 | Mail, item and receiver. |
| `DumpReading.DumpReader.LoadItemText` | src/game/PlayerDump.cpp:697-707 | The text's id, and the cache entry of the text. |
| `DumpReading.DumpReader.RewriteLine` | src/game/PlayerDump.cpp:559-712 | On a line that shows a row of plain values: fails exactly if the row is incomplete or its pet unknown, and otherwise leaves the printed form of the loaded row. |
| `DumpReading.DumpReader.LoadDump` | src/game/PlayerDump.cpp:504-731 | On a dump of such rows: never hangs, succeeds with exactly the loaded rows sent or fails because a row cannot be loaded, and sets the generators past the new ids. |
| `DumpRuns.AllRowsDone` | src/game/PlayerDump.cpp:504-716 | Every row of a loaded dump is as its table prescribes, by the final id maps. |
| `DumpRuns.NewIdsFillTheRange` | src/game/PlayerDump.cpp:721-723 | Each id map is one to one onto the range from the next free id to the value the generator is set to. |
| `DumpRuns.DumpKeepsReferences` | src/game/PlayerDump.cpp:504-723 | Any two references of a kind, anywhere in the dump, agree after loading exactly if they did before, but for a zero that only one column keeps. |
| `DumpRuns.MailAndItemTextsPart` | src/game/PlayerDump.cpp:608-685 | The exception occurs: a mail and an item without text refer to the same text before and to different ones after loading. |
| `DumpRuns.PetsKeepTheirNumbers` | src/game/PlayerDump.cpp:636-675 | However a dump repeats its pets: each keeps one number of its own, and all pet rows show the numbers their pets are noted under exactly if every row that repeats a pet is in place, that is, the pet row before it shows the same id and the last pet-table row in between, if any, refers to the same pet. |
| `DumpRuns.DumpKeepsItsPets` | src/game/PlayerDump.cpp:488-675 | The same for a whole dump from the reader's first state: it is enough that one number more than there are rows differ. |
| `DumpRuns.PetReferencesPreserved` | src/game/PlayerDump.cpp:636-675 | Where every repeated row is in place, a loaded row of a pet table refers to a loaded pet exactly if it did before. |
| `DumpRuns.OutOfPlaceShowsAnother` | src/game/PlayerDump.cpp:636-675 | The first row out of place shows another number than the one its pet is noted under. |
| `DumpRuns.RepeatedPetShowsAnother` | src/game/PlayerDump.cpp:636-659 | Pet 5, pet 6, pet 5 again: the third row shows a number that pet 5 is not noted under. |
| `DumpNames.CharactersAreNamed` | src/game/PlayerDump.cpp:574-592 | In a loaded dump every characters row bears the given name; without one, the first row that has a name keeps it and all later ones bear it. at_login reads 1 exactly in a row that keeps a taken name, and is otherwise unchanged. |
| `DumpNames.TakenNameIsFlagged` | src/game/PlayerDump.cpp:574-587 | One character with a taken name and no given one: the loaded row keeps the name and is flagged for renaming. |
| `DumpQuery.BatchEnd` | src/game/PlayerDump.cpp:241-261 | A batch ends with the first id that brings the text near the limit, or with the last id. |
| `DumpQuery.GenerateWhereStr` | src/game/PlayerDump.cpp:241-261 | The condition names the ids of one batch. |
| `DumpQuery.ShortTablesFit` | src/game/PlayerDump.cpp:241-342 | Every query of a table fits its buffer exactly if the table's name has at most 13 characters, whatever the field is called. |
| `DumpQuery.MarginIsTooSmall` | src/game/PlayerDump.cpp:241-261 | A batch of 2517 item guids whose query against character_gifts is longer than the buffer. |
| `DumpQuery.DumpTableContent` | src/game/PlayerDump.cpp:324-378 | The batches are queried in order up to the first without an answer, and the rows answered so far are dumped. |
| `DumpQuery.BatchesNameAll` | src/game/PlayerDump.cpp:332-378 | Together the batches name every id once and in order. |
| `DumpQuery.AllIdsAreQueried` | src/game/PlayerDump.cpp:342-343 | Every id is queried exactly if every batch but the last has an answer. |
| `DumpQuery.AllRowsAreDumped` | src/game/PlayerDump.cpp:342-343 | No row is lost exactly if no batch with rows comes after one without any. |
| `DumpQuery.EmptyBatchLosesRows` | src/game/PlayerDump.cpp:342-343 | 2518 item guids of which only the last has a row: the row is not dumped. |
| `Cameras.Camera.constructor` | src/game/Camera.cpp:27-30 | A new camera looks from its owner and is the last of its list. |
| `Cameras.Camera.Destroy` | src/game/Camera.cpp:32-39 | A destroyed camera leaves its owner's list. |
| `Cameras.SetView` | src/game/Camera.cpp:56-91 | Moves the camera to the new object's list and sets the far sight field, or changes nothing. |
| `Cameras.ResetView` | src/game/Camera.cpp:99-102 | The same, back to the owner. |
| `Cameras.CameraCall` | src/game/Camera.h:93-103 | Visits every attached camera once, in order, although handlers detach cameras during the walk. |
| `Cameras.EventRemovedFromWorld` | src/game/Camera.h:119-123 | Only the object's own camera stays, and those of players not in map; the others look from their owners. |
| `Cameras.EventVisibilityChanged` | src/game/Camera.h:131-134 | Viewers that cannot see the object any more go back to their owners, with the same exceptions. |
| `Cameras.EventMovesLeaving` | src/game/Camera.h:93-103 | Leaving cameras are gone from the list, the others keep their order, and each leaving one is at the end of its owner's list. |
| `Cameras.EventStaysAttached` | src/game/Camera.h:90-134 | An event keeps every camera in exactly one list. |
| `Cameras.ActionStaysAttached` | src/game/Camera.cpp:27-122 | So does every other action. |
| `Cameras.EachCameraInOneList` | src/game/Camera.cpp:27-122 | After every run a live camera occurs exactly once in the list of its source, and in no other. |
| `InstanceLimit.AccountMgr.CheckInstanceCount` | src/game/AccountMgr.cpp:381-400 | True for known instances and below the limit; else it gives up the first expired entry, or refuses. |
| `InstanceLimit.AccountMgr.AddInstanceEnterTime` | src/game/AccountMgr.cpp:402-412 | Records the entry. |
| `InstanceLimit.NeverOverTheLimit` | src/game/AccountMgr.cpp:381-412 | In every run an account has entered at most maxCount instances within the last hour (one, for a limit of zero). |
| `InstanceLimit.RefusalsAreJust` | src/game/AccountMgr.cpp:381-400 | A refused account entered at least maxCount other instances within the last hour. |
| `InstanceLimit.ZeroLetsOneIn` | src/game/AccountMgr.cpp:383-385 | In every run at most maxCount instances were entered within the last hour, exactly if maxCount is not zero: with zero the first entry passes unchecked. |
| `ObjectGuids.EntryGuidsDecode` | src/game/ObjectGuid.h:129-162 | A guid with an entry decodes exactly if entry and counter fit 24 bits each and the counter is not 0, which makes the empty guid. |
| `ObjectGuids.PlainGuidsDecode` | src/game/ObjectGuid.h:130-155 | Of the 32-bit counters without an entry all decode but 0, which makes the empty guid and decodes for players only. |
| `ObjectGuids.CountersTellGuidsApart` | src/game/ObjectGuid.h:129-162 | Different counters make different guids, whatever the entries. |
| `ObjectGuids.GuidIsSum` | src/game/ObjectGuid.h:129-130 | Where the parts fit, a guid is the sum of the counter, the entry from bit 24 on and the kind from bit 48 on. |
| `ObjectGuids.ObjectGuidGenerator.Generate` | src/game/ObjectGuid.cpp:73-88 | The oldest freed counter, else the next one; the server is stopped near the maximum. |
| `ObjectGuids.ObjectGuidGenerator.GenerateRange` | src/game/ObjectGuid.cpp:90-102 | A hundred counters in a row, without looking at freed ones. |
| `ObjectGuids.CallsAreFresh` | src/game/ObjectGuid.cpp:73-102 | One call hands out nothing in use, nothing zero and nothing too large, and keeps this so. |
| `ObjectGuids.NoCounterTwice` | src/game/ObjectGuid.cpp:73-102 | The same over every run that never has to stop. |
| `ObjectGuids.LiveGuidsDiffer` | src/game/ObjectGuid.h:276-294 | So all live objects of a kind have different guids, each of which decodes. |
| `MapHeights.Scan` | contrib/extractor/System.cpp:497-516 | The extremes of an array. |
| `MapHeights.Bound` | contrib/extractor/System.cpp:497-534 | After scan and clamp all heights lie between the two extremes, both of which occur, and each is the original or the limit. |
| `MapHeights.PackingIsClose` | contrib/extractor/System.cpp:323-331 | A packed height is in range and unpacks to within diff / 510, or diff / 131070. |
| `MapHeights.ExtremesAreExact` | contrib/extractor/System.cpp:323-331 | The lowest and the highest height are kept exactly. |
| `MapHeights.PackingIsMonotone` | contrib/extractor/System.cpp:323-331 | Higher places never pack lower. |
| `MapHeights.FlatIsClose` | contrib/extractor/System.cpp:545-549 | A grid stored as flat is off by less than the allowed delta. |
| `MapHeights.PackingIsPrecise` | contrib/extractor/System.cpp:545-570 | Integers are used exactly from the flat limit to a difference of 2048, bytes below 2, and no height is off by more than a 64th. |
| `MapHeights.PackHeights` | contrib/extractor/System.cpp:535-595 | The choice of packing, the packed arrays and the size of the section. |
| `MapLayout.LiquidBox` | contrib/extractor/System.cpp:756-777 | The bounding box is the smallest around all shown squares, the extremes are the least and greatest of their heights, and hidden squares are flattened. |
| `MapLayout.LiquidHeightsInBounds` | contrib/extractor/System.cpp:778-806 | The heights stored are within the array exactly if something is shown or flat liquids need not be stored. |
| `MapLayout.LiquidBoxIsStored` | contrib/extractor/System.cpp:783-786 | Where something is shown the box fits its bytes. |
| `MapLayout.FlatLiquidIsClose` | contrib/extractor/System.cpp:778-800 | Liquid heights are left out exactly where they differ by less than a thousandth, or not at all. |
| `MapLayout.MakeLiquidHeader` | contrib/extractor/System.cpp:778-806 | Header and size of the liquid section. |
| `MapLayout.MakeHeader` | contrib/extractor/System.cpp:406-421 | Offsets and sizes of all sections. |
| `MapLayout.WriteFile` | contrib/extractor/System.cpp:837-881 | Every section starts at the byte its offset says and has as many bytes as its size says. |

## Left out

- Database access, packets, sessions, logging, locks and the world's clock: tables are maps or sequences of
  rows, packets sequences of entries, times parameters.
- Rounding of floats, `acos` and `exp`: reals instead; every used position carries the angle it keeps free,
  and the small step of the angle search is any positive real. HonorableKillPoints is not modelled.
- DumpQuery.DumpTableContent: which ids have rows is a parameter, the dumped rows are a set of ids, and tables that
  are queried by one guid are left out.
- Negative honor: honor points are never negative here, as HonorMgr::Add clamps losses at zero.
- The report of a maintenance (CreateCalculationReport), the restart of the server on a maintenance day, and the
  first maintenance day, which World computes.
- HonorMgr.Update: kills and contributions of today, yesterday and the week, which are only shown. A row counts as
  recorded when it is earned, although it is saved later; the reset of a player's honor is left out.
- Pools, mails, quests, creature updates and hardcoded events inside GameEventMgr; pooled guids are only
  kept apart from unpooled ones.
- Overflow of 32-bit standings before they are clamped: standings in Reputation are unbounded integers.
- Forced reactions and the messages about reputation (SendState, SendVisible, SendForceReactions).
- Looting itself: taking items, notifying looters, money, group rolls, random properties and the loot owner.
- HasQuestDropForPlayer, Verify and CheckLootRefs of loot templates, and the loading of loot tables.
- DumpLine.FindNth: NULL columns and escaped quotes are outside the round trip; the parser does not know them.
- DumpIds.PrintedIdReads: atoi on numbers beyond 32 bits, undefined in C++, wraps around here.
- DumpReader.LoadDump: opening the file, counting the account's characters, choosing the guid and checking the
  name come before the model; what a dump with malformed rows leaves behind is not stated beyond failing or
  hanging, and the character guid generator is not moved.
- changetokGuid, which nothing calls.
- Camera grids, visibility notifiers and active objects of maps; IsInMap and IsInVisibleList are sets that each
  owner carries, because Player.h and Object.h are not part of this model.
- The lock of ObjectSafeGuidGenerator, and what a generator hands out after it has told the server to stop.
- The reading of map tiles, of liquid chunks and of DBC files; the contents of the map file but for sizes and
  positions of its sections.
- GM tickets, social lists, skills, broadcasts, gossip, scripts, bots and the model extractors: they would add
  only simple members or input and output.
