/** What any number of weekly maintenances keeps, with play in between. */
module HonorRuns {
  import opened HonorRank
  import opened HonorMaintenance
  import opened Runs

  predicate PointsInRange(rp: real) { 0.0 <= rp <= 65000.0 && IsTenths(rp) }

  ghost predicate InRange(db: Characters) {
    forall guid <- db.Keys :: PointsInRange(db[guid].rankPoints)
  }

  ghost predicate WithinCap(db: Characters) {
    forall guid <- db.Keys :: 0.0 <= db[guid].rankPoints <= MaximumRpAtLevel(db[guid].level)
  }

  /** A week of play: levels never drop, dishonor only takes points and stops at zero (HonorMgr::Add),
      the highest rank only rises, new characters start without points. */
  ghost predicate PlayStep(db: Characters, db': Characters) {
    && db.Keys <= db'.Keys
    && (forall guid <- db.Keys :: var r, r' := db[guid], db'[guid];
          && r.level <= r'.level && 0.0 <= r'.rankPoints <= r.rankPoints && IsTenths(r'.rankPoints)
          && InfoOfRank(r.highestRank).visualRank <= InfoOfRank(r'.highestRank).visualRank)
    && (forall guid <- db'.Keys - db.Keys :: db'[guid].rankPoints == 0.0)
  }

  ghost predicate MaintenanceStep(db: Characters, db': Characters) {
    exists harvest: map<nat, Harvest>, team: nat -> Team, minHk: nat, earnings: map<nat, real> ::
      harvest.Keys <= db.Keys && WeekStep(db, db', harvest, team, minHk, earnings)
  }

  ghost predicate Step(db: Characters, db': Characters) {
    MaintenanceStep(db, db') || PlayStep(db, db')
  }

  lemma NewPointsFit(row: CharacterRow, active: bool, earning: real)
    requires 0.0 <= row.rankPoints <= 65000.0 && IsTenths(row.rankPoints)
    requires 0.0 <= earning <= 13000.0 && (!active ==> earning == 0.0)
    ensures var p := NewRankPoints(row, active, earning);
            && 0.0 <= p <= 65000.0
            && (active ==> p <= MaximumRpAtLevel(row.level))
            && (!active ==> p <= row.rankPoints && IsTenths(p))
  {
    DecayKeepsRange(earning, row.rankPoints);
    if active {
      LevelCapMonotone(row.level, row.level);
    } else {
      InactiveDecayNeverRaises(row.rankPoints);
    }
  }

  lemma RoundingKeepsLevelCap(p: real, level: nat)
    requires 0.0 <= p <= MaximumRpAtLevel(level)
    ensures 0.0 <= RoundToTenth(p) <= MaximumRpAtLevel(level) && IsTenths(RoundToTenth(p))
  {
    var cap := MaximumRpAtLevel(level).Floor;
    assert MaximumRpAtLevel(level) == cap as real;
    RoundingKeepsCaps(p, cap);
  }

  lemma RoundedPointsFit(row: CharacterRow, active: bool, earning: real)
    requires 0.0 <= row.rankPoints <= 65000.0 && IsTenths(row.rankPoints)
    requires 0.0 <= earning <= 13000.0 && (!active ==> earning == 0.0)
    ensures var p := RoundToTenth(NewRankPoints(row, active, earning));
            && 0.0 <= p <= 65000.0 && IsTenths(p)
            && (active ==> p <= MaximumRpAtLevel(row.level))
            && (!active ==> p <= row.rankPoints)
  {
    NewPointsFit(row, active, earning);
    var p := NewRankPoints(row, active, earning);
    if active {
      LevelCapMonotone(row.level, row.level);
      RoundingKeepsLevelCap(p, row.level);
    } else {
      RoundingKeepsCaps(p, 65000);
    }
  }

  lemma RowStaysInRange(row: CharacterRow, row': CharacterRow, scored: bool, active: bool, earning: real, minHk: nat)
    requires RowAfter(row, row', scored, active, earning, minHk)
    requires 0.0 <= row.rankPoints <= 65000.0 && IsTenths(row.rankPoints)
    requires 0.0 <= earning <= 13000.0 && (!active ==> earning == 0.0)
    ensures 0.0 <= row'.rankPoints <= 65000.0 && IsTenths(row'.rankPoints)
    ensures row.rankPoints <= MaximumRpAtLevel(row.level) ==> row'.rankPoints <= MaximumRpAtLevel(row.level)
    ensures scored && active ==> row'.rankPoints <= MaximumRpAtLevel(row.level)
    ensures !scored || !active ==> row'.rankPoints <= row.rankPoints
    ensures row'.level == row.level
  {
    if scored {
      RoundedPointsFit(row, active, earning);
    }
  }

  /** A maintenance shows a highest rank that is the better of the old one and this week's, which are the
      visible ranks of the points before rounding; without a score it stays. */
  lemma HighestRankNeverDrops(row: CharacterRow, row': CharacterRow, scored: bool, active: bool, earning: real,
                              minHk: nat)
    requires RowAfter(row, row', scored, active, earning, minHk)
    requires 0.0 <= row.rankPoints <= 65000.0 && IsTenths(row.rankPoints)
    requires 0.0 <= earning <= 13000.0 && (!active ==> earning == 0.0)
    ensures HighestVisual(row') >= HighestVisual(row)
    ensures var week := CalculateRank(NewRankPoints(row, active, earning), 0, minHk).visualRank;
            HighestVisual(row') == if scored && week > 0 && week > HighestVisual(row) then week else HighestVisual(row)
  {
    if scored {
      NewPointsFit(row, active, earning);
      RankInfoIsItsOwn(NewRankPoints(row, active, earning), minHk);
    }
  }

  lemma RankInfoIsItsOwn(rp: real, minHk: nat)
    requires rp >= 0.0
    ensures var current := CalculateRank(rp, 0, minHk); InfoOfRank(current.rank).visualRank == current.visualRank
  {
  }

  ghost predicate HighestKept(db: Characters, db': Characters) {
    && db.Keys <= db'.Keys
    && forall guid <- db.Keys ::
         HighestVisual(db'[guid]) >= HighestVisual(db[guid])
  }

  function HighestVisual(row: CharacterRow): int { InfoOfRank(row.highestRank).visualRank }

  lemma StepKeeps(db: Characters, db': Characters)
    requires InRange(db)
    requires Step(db, db')
    ensures InRange(db') && (WithinCap(db) ==> WithinCap(db'))
    ensures HighestKept(db, db')
  {
    if PlayStep(db, db') {
      forall guid <- db'.Keys
        ensures 0.0 <= db'[guid].rankPoints <= 65000.0 && IsTenths(db'[guid].rankPoints)
        ensures WithinCap(db) ==> db'[guid].rankPoints <= MaximumRpAtLevel(db'[guid].level)
      {
        if guid in db {
          LevelCapMonotone(db[guid].level, db'[guid].level);
        } else {
          assert guid in db'.Keys - db.Keys;
          LevelCapMonotone(db'[guid].level, db'[guid].level);
        }
      }
    } else {
      var harvest: map<nat, Harvest>, team: nat -> Team, minHk: nat, earnings: map<nat, real> :|
        harvest.Keys <= db.Keys && WeekStep(db, db', harvest, team, minHk, earnings);
      forall guid <- db.Keys
        ensures 0.0 <= db'[guid].rankPoints <= 65000.0 && IsTenths(db'[guid].rankPoints)
        ensures WithinCap(db) ==> db'[guid].rankPoints <= MaximumRpAtLevel(db'[guid].level)
        ensures InfoOfRank(db'[guid].highestRank).visualRank >= InfoOfRank(db[guid].highestRank).visualRank
      {
        var e := if guid in earnings then earnings[guid] else 0.0;
        RowStaysInRange(db[guid], db'[guid], guid in harvest, guid in earnings, e, minHk);
        HighestRankNeverDrops(db[guid], db'[guid], guid in harvest, guid in earnings, e, minHk);
      }
    }
  }

  /** What a stretch of a run keeps, from its first state to its last. */
  ghost predicate HonorKept(db: Characters, db': Characters) {
    InRange(db) ==> InRange(db') && (WithinCap(db) ==> WithinCap(db')) && HighestKept(db, db')
  }

  lemma HonorKeptByStep(a: Characters, b: Characters, c: Characters)
    requires HonorKept(a, b) && Step(b, c)
    ensures HonorKept(a, c)
  {
    if InRange(a) {
      StepKeeps(b, c);
      HighestKeptTransitive(a, b, c);
    }
  }

  lemma HighestKeptTransitive(a: Characters, b: Characters, c: Characters)
    requires HighestKept(a, b) && HighestKept(b, c)
    ensures HighestKept(a, c)
  {
  }

  /** Over every run of weeks: points stay in [0, 65000], points inside the level cap stay inside it,
      and nobody's highest rank ever drops. */
  lemma RunsKeepHonor(run: seq<Characters>, i: nat, j: nat)
    requires IsRun(run, (a, b) => Step(a, b)) && i <= j < |run| && InRange(run[i])
    ensures InRange(run[j])
    ensures WithinCap(run[i]) ==> WithinCap(run[j])
    ensures HighestKept(run[i], run[j])
  {
    forall a, b, c | HonorKept(a, b) && Step(b, c)
      ensures HonorKept(a, c)
    {
      HonorKeptByStep(a, b, c);
    }
    Along(run, (a, b) => Step(a, b), (a, b) => HonorKept(a, b), i, j);
  }

  /** Paid as active are exactly the scored characters that have an account and enough honorable kills. */
  lemma ActivityIsKills(db: Characters, db': Characters, harvest: map<nat, Harvest>,
                        team: nat -> Team, minHk: nat, earnings: map<nat, real>, guid: nat)
    requires harvest.Keys <= db.Keys && WeekStep(db, db', harvest, team, minHk, earnings)
    ensures guid in earnings <==> guid in harvest && harvest[guid].hk >= minHk && db[guid].account != 0
  {
    assert guid in earnings <==> guid in harvest && GroupIn(db, harvest, team, minHk, guid) != Inactive;
  }

  /** Points only ever rise in a maintenance that pays the character as active. */
  lemma OnlyActivityRaises(db: Characters, db': Characters, harvest: map<nat, Harvest>,
                           team: nat -> Team, minHk: nat, earnings: map<nat, real>, guid: nat)
    requires harvest.Keys <= db.Keys && WeekStep(db, db', harvest, team, minHk, earnings)
    requires InRange(db) && guid in db && db'[guid].rankPoints > db[guid].rankPoints
    ensures guid in earnings && guid in harvest && harvest[guid].hk >= minHk && db[guid].account != 0
    ensures db'[guid].rankPoints <= MaximumRpAtLevel(db[guid].level)
  {
    var e := if guid in earnings then earnings[guid] else 0.0;
    RowStaysInRange(db[guid], db'[guid], guid in harvest, guid in earnings, e, minHk);
  }
}
