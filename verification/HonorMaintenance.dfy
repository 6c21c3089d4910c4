/** The weekly maintenance that pays rank points along the honor curve (HonorMaintenancer), and
    what any number of weeks keeps. A maintenance runs right after a server start, so its lists
    begin empty; database rows are a map from character to stored columns. */
module HonorMaintenance {
  import opened HonorCurve
  import opened HonorRank

  datatype Team = Alliance | Horde

  datatype WeeklyScore = WeeklyScore(
    level: nat, account: nat, hk: nat, dk: nat, cp: real, oldRp: real, highestRank: int,
    newRp: real, earning: real, standing: nat)

  datatype Group = Active(team: Team) | Inactive

  // ---------- value computations ----------

  function Min(a: real, b: real): real { if b < a then b else a }

  function CalculateRpDecay(rpEarning: real, rp: real): real {
    var delta := rpEarning - (0.2 * rp + 0.5).Floor as real;
    var halved := if delta < 0.0 then delta / 2.0 else delta;
    rp + (if halved < -2500.0 then -2500.0 else halved)
  }

  function MaximumRpAtLevel(level: nat): real {
    if level <= 29 then 6500.0
    else if level <= 35 then 7150.0 + 975.0 * (level - 30) as real
    else if level <= 39 then 12025.0 + 1300.0 * (level - 35) as real
    else if level <= 43 then 17225.0 + 1625.0 * (level - 39) as real
    else if level <= 52 then 23725.0 + 2275.0 * (level - 43) as real
    else if level <= 60 then 44200.0 + 2600.0 * (level - 52) as real
    else 65000.0
  }

  /** The "%.1f" of the UPDATE statement, ties upward. */
  function RoundToTenth(x: real): real { (10.0 * x + 0.5).Floor as real / 10.0 }

  predicate IsTenths(x: real) { 10.0 * x == (10.0 * x).Floor as real }

  lemma LevelCapMonotone(a: nat, b: nat)
    requires a <= b
    ensures 6500.0 <= MaximumRpAtLevel(a) <= MaximumRpAtLevel(b) <= 65000.0
  {
  }

  /** Decay keeps points in range: never negative, never above the last bracket, and paying more
      never leaves a player with less. */
  lemma DecayKeepsRange(earning: real, rp: real)
    requires 0.0 <= rp <= 65000.0 && 0.0 <= earning <= 13000.0
    ensures 0.0 <= CalculateRpDecay(earning, rp) <= 65000.0
  {
    var decay := (0.2 * rp + 0.5).Floor;
    assert decay as real <= 0.2 * rp + 0.5 < decay as real + 1.0;
    if rp < 2.5 {
      assert decay == 0;
    }
    assert decay >= 13000 || rp <= 64997.5;
  }

  lemma DecayMonotone(e: real, f: real, rp: real)
    requires e <= f
    ensures CalculateRpDecay(e, rp) <= CalculateRpDecay(f, rp)
  {
  }

  /** A fifth of the points has to be earned again, up to rounding. What is earned beyond it is gained in full, what
      is missing costs half of it, and 2500 at most. */
  lemma DecayTakesAFifth(earning: real, rp: real)
    requires rp >= 0.0 && earning >= 0.0
    ensures var gain, beyond := CalculateRpDecay(earning, rp) - rp, earning - 0.2 * rp;
            && (beyond >= 0.5 ==> -0.5 <= gain - beyond <= 0.5)
            && (-4999.5 <= beyond <= -0.5 ==> -0.5 <= 2.0 * gain - beyond <= 0.5)
            && (beyond <= -5000.5 ==> gain == -2500.0)
  {
  }

  /** The cap stays at 6500 up to level 29, then each level raises it by the same step as its neighbours' of the
      same bracket, up to 65000 at level 60. */
  lemma LevelCapSteps(level: nat)
    ensures MaximumRpAtLevel(29) == 6500.0 && MaximumRpAtLevel(60) == 65000.0
    ensures MaximumRpAtLevel(level + 1) - MaximumRpAtLevel(level) ==
            if level < 29 || level >= 60 then 0.0
            else if level == 29 then 650.0
            else if level < 35 then 975.0
            else if level < 39 then 1300.0
            else if level < 43 then 1625.0
            else if level < 52 then 2275.0
            else 2600.0
  {
  }

  /** A week without honor takes points away: a tenth up to rounding, and never more than 2500. */
  lemma InactiveDecayNeverRaises(rp: real)
    requires rp >= 0.0
    ensures CalculateRpDecay(0.0, rp) <= rp
    ensures CalculateRpDecay(0.0, rp) >= rp - 2500.0 && CalculateRpDecay(0.0, rp) >= 0.9 * rp - 0.25
    ensures if rp < 25002.5 then CalculateRpDecay(0.0, rp) <= 0.9 * rp + 0.25
            else CalculateRpDecay(0.0, rp) == rp - 2500.0
    ensures IsTenths(rp) ==> IsTenths(CalculateRpDecay(0.0, rp))
  {
    var decay := (0.2 * rp + 0.5).Floor;
    assert decay >= 0;
    if IsTenths(rp) {
      var lost := if decay > 5000 then 25000 else 5 * decay;
      assert CalculateRpDecay(0.0, rp) == rp - lost as real / 10.0;
      assert 10.0 * CalculateRpDecay(0.0, rp) == ((10.0 * rp).Floor - lost) as real;
    }
  }

  lemma RoundingKeepsCaps(x: real, cap: int)
    requires 0.0 <= x <= cap as real
    ensures 0.0 <= RoundToTenth(x) <= cap as real && IsTenths(RoundToTenth(x))
    ensures IsTenths(x) ==> RoundToTenth(x) == x
  {
    var tenths := (10.0 * x + 0.5).Floor;
    assert tenths <= 10 * cap;
    var r := RoundToTenth(x);
    assert r == tenths as real / 10.0;
    assert 10.0 * r == tenths as real;
    if IsTenths(x) { assert tenths == (10.0 * x).Floor; }
  }

  lemma RoundingIsNear(x: real)
    ensures -0.05 < RoundToTenth(x) - x <= 0.05 && IsTenths(RoundToTenth(x))
  {
    var tenths := (10.0 * x + 0.5).Floor;
    assert 10.0 * RoundToTenth(x) == tenths as real;
  }

  // ---------- standing lists ----------

  function GroupOf(score: WeeklyScore, team: Team, minHk: nat): Group {
    if score.hk < minHk || score.account == 0 then Inactive else Active(team)
  }

  function InsertStanding(standings: seq<HonorStanding>, s: HonorStanding): seq<HonorStanding> {
    if standings == [] || s.cp > standings[0].cp then [s] + standings
    else [standings[0]] + InsertStanding(standings[1..], s)
  }

  /** std::list::sort with HonorStanding's order, as a stable insertion sort. */
  function SortStandings(standings: seq<HonorStanding>): seq<HonorStanding> {
    if standings == [] then []
    else InsertStanding(SortStandings(standings[..|standings| - 1]), standings[|standings| - 1])
  }

  ghost predicate Listed(standings: seq<HonorStanding>, guid: nat) {
    exists s <- standings :: s.guid == guid
  }

  ghost predicate DistinctGuids(standings: seq<HonorStanding>) {
    forall i, j :: 0 <= i < j < |standings| ==> standings[i].guid != standings[j].guid
  }

  lemma HeadApart(head: HonorStanding, tail: seq<HonorStanding>)
    ensures DistinctGuids([head] + tail) <==> DistinctGuids(tail) && forall x <- tail :: x.guid != head.guid
  {
    var all := [head] + tail;
    if DistinctGuids(all) {
      forall i, j | 0 <= i < j < |tail|
        ensures tail[i].guid != tail[j].guid
      {
        assert all[i + 1] == tail[i] && all[j + 1] == tail[j];
      }
      forall x <- tail
        ensures x.guid != head.guid
      {
        var k :| 0 <= k < |tail| && tail[k] == x;
        assert all[k + 1] == x && all[0] == head;
      }
    }
  }

  lemma LastApart(front: seq<HonorStanding>, last: HonorStanding)
    requires DistinctGuids(front + [last])
    ensures DistinctGuids([last] + front)
  {
    var all := front + [last];
    forall i, j | 0 <= i < j < |front|
      ensures front[i].guid != front[j].guid
    {
      assert all[i] == front[i] && all[j] == front[j];
    }
    forall x <- front
      ensures x.guid != last.guid
    {
      var k :| 0 <= k < |front| && front[k] == x;
      assert all[k] == x && all[|front|] == last;
    }
    HeadApart(last, front);
  }

  lemma {:induction false} InsertKeeps(standings: seq<HonorStanding>, s: HonorStanding)
    ensures forall x :: x in InsertStanding(standings, s) <==> x in standings || x == s
    ensures DistinctGuids(standings + [s]) ==> DistinctGuids(InsertStanding(standings, s))
  {
    if standings != [] && s.cp <= standings[0].cp {
      var head, tail := standings[0], standings[1..];
      InsertKeeps(tail, s);
      assert standings == [head] + tail;
      assert standings + [s] == [head] + (tail + [s]);
      HeadApart(head, tail + [s]);
      HeadApart(head, InsertStanding(tail, s));
    } else if DistinctGuids(standings + [s]) {
      LastApart(standings, s);
    }
  }

  lemma {:induction false} InsertKeepsOrder(standings: seq<HonorStanding>, s: HonorStanding)
    requires Sorted(standings)
    ensures Sorted(InsertStanding(standings, s))
    ensures var r := InsertStanding(standings, s);
            r != [] && r[0].cp == if standings == [] || s.cp > standings[0].cp then s.cp else standings[0].cp
  {
    if standings != [] && s.cp <= standings[0].cp {
      InsertKeepsOrder(standings[1..], s);
    }
  }

  /** Sorting changes the order and nothing else. */
  lemma {:induction false} SortKeeps(standings: seq<HonorStanding>)
    ensures Sorted(SortStandings(standings))
    ensures forall x :: x in SortStandings(standings) <==> x in standings
    ensures DistinctGuids(standings) ==> DistinctGuids(SortStandings(standings))
  {
    if standings != [] {
      var front, last := standings[..|standings| - 1], standings[|standings| - 1];
      SortKeeps(front);
      InsertKeeps(SortStandings(front), last);
      InsertKeepsOrder(SortStandings(front), last);
      assert standings == front + [last];
      if DistinctGuids(standings) {
        forall x <- SortStandings(front) ensures x.guid != last.guid { assert x in front; }
      }
    }
  }

  /** The list holds exactly the characters of one group, each once and with its contribution. */
  ghost predicate Lists(standings: seq<HonorStanding>, scores: map<nat, WeeklyScore>, keys: set<nat>,
                        team: nat -> Team, minHk: nat, group: Group)
    requires keys <= scores.Keys
  {
    && DistinctGuids(standings)
    && (forall s :: s in standings <==>
          s.guid in keys && GroupOf(scores[s.guid], team(s.guid), minHk) == group && s.cp == scores[s.guid].cp)
  }

  lemma ListGrows(standings: seq<HonorStanding>, scores: map<nat, WeeklyScore>, keys: set<nat>, guid: nat,
                  team: nat -> Team, minHk: nat, group: Group)
    requires keys <= scores.Keys && guid in scores && guid !in keys
    requires Lists(standings, scores, keys, team, minHk, group)
    ensures Lists(if GroupOf(scores[guid], team(guid), minHk) == group
                  then standings + [HonorStanding(guid, scores[guid].cp)]
                  else standings,
                  scores, keys + {guid}, team, minHk, group)
  {
    var longer := standings + [HonorStanding(guid, scores[guid].cp)];
    assert forall s :: s in longer <==> s in standings || s == HonorStanding(guid, scores[guid].cp);
  }

  lemma SortedListIsSame(standings: seq<HonorStanding>, scores: map<nat, WeeklyScore>, keys: set<nat>,
                         team: nat -> Team, minHk: nat, group: Group)
    requires keys <= scores.Keys && Lists(standings, scores, keys, team, minHk, group)
    ensures Sorted(SortStandings(standings)) && Lists(SortStandings(standings), scores, keys, team, minHk, group)
  {
    SortKeeps(standings);
  }

  lemma ListNext(standings: seq<HonorStanding>, scores: map<nat, WeeklyScore>, keys: set<nat>, guid: nat,
                 team: nat -> Team, minHk: nat, group: Group, own: Group)
    requires keys <= scores.Keys && guid in scores && guid !in keys && own == GroupOf(scores[guid], team(guid), minHk)
    requires Lists(standings, scores, keys, team, minHk, group)
    ensures own == group ==>
              Lists(standings + [HonorStanding(guid, scores[guid].cp)], scores, keys + {guid}, team, minHk, group)
    ensures own != group ==> Lists(standings, scores, keys + {guid}, team, minHk, group)
  {
    ListGrows(standings, scores, keys, guid, team, minHk, group);
  }

  ghost predicate ThreeLists(alliance: seq<HonorStanding>, horde: seq<HonorStanding>, inactive: seq<HonorStanding>,
                             scores: map<nat, WeeklyScore>, keys: set<nat>, team: nat -> Team, minHk: nat)
    requires keys <= scores.Keys
  {
    && Lists(alliance, scores, keys, team, minHk, Active(Alliance))
    && Lists(horde, scores, keys, team, minHk, Active(Horde))
    && Lists(inactive, scores, keys, team, minHk, Inactive)
  }

  lemma OneListGrows(alliance: seq<HonorStanding>, horde: seq<HonorStanding>, inactive: seq<HonorStanding>,
                     scores: map<nat, WeeklyScore>, keys: set<nat>, guid: nat, team: nat -> Team, minHk: nat)
    requires keys <= scores.Keys && guid in scores && guid !in keys
    requires ThreeLists(alliance, horde, inactive, scores, keys, team, minHk)
    ensures var s := [HonorStanding(guid, scores[guid].cp)];
            match GroupOf(scores[guid], team(guid), minHk)
            case Active(Alliance) => ThreeLists(alliance + s, horde, inactive, scores, keys + {guid}, team, minHk)
            case Active(Horde) => ThreeLists(alliance, horde + s, inactive, scores, keys + {guid}, team, minHk)
            case Inactive => ThreeLists(alliance, horde, inactive + s, scores, keys + {guid}, team, minHk)
  {
    var group := GroupOf(scores[guid], team(guid), minHk);
    ListNext(alliance, scores, keys, guid, team, minHk, Active(Alliance), group);
    ListNext(horde, scores, keys, guid, team, minHk, Active(Horde), group);
    ListNext(inactive, scores, keys, guid, team, minHk, Inactive, group);
  }

  // ---------- one character's week ----------

  /** A score after the standing list paid it. */
  function Paid(score: WeeklyScore, earning: real, position: nat): WeeklyScore {
    score.(earning := earning,
           newRp := Min(MaximumRpAtLevel(score.level), CalculateRpDecay(earning, score.oldRp)),
           standing := position)
  }

  datatype CharacterRow = CharacterRow(
    level: nat, account: nat, rankPoints: real, highestRank: int, standing: nat,
    lastWeekHk: nat, lastWeekCp: real, storedHk: nat, storedDk: nat)

  /** The highest rank kept after a week that ends with the given points. */
  function HigherRank(newRp: real, highestRank: int, minHk: nat): int {
    var current := CalculateRank(newRp, 0, minHk);
    if current.visualRank > 0 && current.visualRank > InfoOfRank(highestRank).visualRank then current.rank
    else highestRank
  }

  datatype Kind = Honorable | Dishonorable | OtherKind

  /** A row of character_honor_cp. */
  datatype CpRow = CpRow(guid: nat, date: nat, kind: Kind, cp: real)

  function Select(rows: seq<CpRow>, p: CpRow -> bool): seq<CpRow> {
    if rows == [] then []
    else Select(rows[..|rows| - 1], p) + (if p(rows[|rows| - 1]) then [rows[|rows| - 1]] else [])
  }

  function Since(day: nat): CpRow -> bool { (r: CpRow) => r.date >= day }

  /** The columns FlushRankPoints writes for a score. */
  function Flushed(row: CharacterRow, score: WeeklyScore, minHk: nat): CharacterRow {
    row.(highestRank := HigherRank(score.newRp, score.highestRank, minHk),
         rankPoints := RoundToTenth(score.newRp),
         standing := score.standing,
         lastWeekHk := score.hk,
         lastWeekCp := RoundToTenth(score.cp),
         storedHk := row.storedHk + score.hk,
         storedDk := row.storedDk + score.dk)
  }

  /** A score after the inactive list was decayed. */
  function AfterInactivity(score: WeeklyScore, listed: bool): WeeklyScore {
    if listed then score.(newRp := CalculateRpDecay(0.0, score.oldRp)) else score
  }

  type Characters = map<nat, CharacterRow>

  /** The weekly query: kills of both kinds and contribution of each character with something to score. */
  datatype Harvest = Harvest(hk: nat, dk: nat, cp: real)

  function FreshScore(row: CharacterRow, h: Harvest): WeeklyScore {
    WeeklyScore(row.level, row.account, h.hk, h.dk, h.cp, row.rankPoints, row.highestRank, 0.0, 0.0, 0)
  }

  function GroupIn(db: Characters, harvest: map<nat, Harvest>, team: nat -> Team, minHk: nat, guid: nat): Group
    requires guid in db && guid in harvest
  {
    GroupOf(FreshScore(db[guid], harvest[guid]), team(guid), minHk)
  }

  /** The points each active character earned: within the range of the curve and, inside a team,
      in the order of contributions. */
  ghost predicate FairEarnings(db: Characters, harvest: map<nat, Harvest>, team: nat -> Team, minHk: nat,
                               earnings: map<nat, real>)
    requires harvest.Keys <= db.Keys
  {
    && (forall guid :: guid in earnings <==> guid in harvest && GroupIn(db, harvest, team, minHk, guid) != Inactive)
    && (forall guid <- earnings.Keys :: 0.0 <= earnings[guid] <= 13000.0)
    && (forall a <- earnings.Keys, b <- earnings.Keys ::
          team(a) == team(b) && harvest[a].cp <= harvest[b].cp ==> earnings[a] <= earnings[b])
  }

  /** What one maintenance does to the database, given the points each active character earned. */
  ghost predicate WeekStep(db: Characters, db': Characters, harvest: map<nat, Harvest>,
                           team: nat -> Team, minHk: nat, earnings: map<nat, real>)
    requires harvest.Keys <= db.Keys
  {
    && db'.Keys == db.Keys
    && FairEarnings(db, harvest, team, minHk, earnings)
    && (forall guid <- db.Keys :: RowAfter(db[guid], db'[guid], guid in harvest, guid in earnings,
                                           if guid in earnings then earnings[guid] else 0.0, minHk))
    && (forall guid <- harvest.Keys :: Tallied(db[guid], db'[guid], harvest[guid]))
    && Ranked(db', harvest, team, earnings)
  }

  ghost predicate RankedPair(db': Characters, harvest: map<nat, Harvest>, a: nat, b: nat)
    requires a in harvest && b in harvest && a in db' && b in db'
  {
    && db'[a].standing != db'[b].standing
    && (harvest[a].cp > harvest[b].cp ==> db'[a].standing < db'[b].standing)
  }

  /** The standings of the active characters of a team: positions without a gap, no two the same, and the more
      contribution the smaller. */
  ghost predicate Ranked(db': Characters, harvest: map<nat, Harvest>, team: nat -> Team, earnings: map<nat, real>)
    requires earnings.Keys <= harvest.Keys <= db'.Keys
  {
    && (forall a <- earnings.Keys, b <- earnings.Keys ::
          team(a) == team(b) && a != b ==> RankedPair(db', harvest, a, b))
    && (forall a <- earnings.Keys :: db'[a].standing > 1 ==>
          exists b <- earnings.Keys :: team(a) == team(b) && db'[b].standing == db'[a].standing - 1)
  }

  /** The week's kills and contribution, noted as last week's, and the kills added up. */
  ghost predicate Tallied(row: CharacterRow, row': CharacterRow, h: Harvest) {
    && row'.lastWeekHk == h.hk && row'.lastWeekCp == RoundToTenth(h.cp)
    && row'.storedHk == row.storedHk + h.hk && row'.storedDk == row.storedDk + h.dk
  }

  /** Points before rounding: active characters are capped by their level, inactive ones only decay. */
  function NewRankPoints(row: CharacterRow, active: bool, earning: real): real {
    var kept := CalculateRpDecay(earning, row.rankPoints);
    if active then Min(MaximumRpAtLevel(row.level), kept) else kept
  }

  ghost predicate RowAfter(row: CharacterRow, row': CharacterRow, scored: bool, active: bool, earning: real,
                           minHk: nat)
  {
    && row'.level == row.level && row'.account == row.account
    && if !scored then row' == row.(standing := 0)
       else
         var newRp := NewRankPoints(row, active, earning);
         && row'.rankPoints == RoundToTenth(newRp)
         && row'.highestRank == HigherRank(newRp, row.highestRank, minHk)
         && (row'.standing > 0 <==> active)
  }

  /** The rows of the given scores are written back, all others have lost their standing. */
  ghost predicate FlushedFor(done: set<nat>, scores: map<nat, WeeklyScore>, db: Characters, db': Characters, minHk: nat)
    requires done <= scores.Keys
  {
    && db'.Keys == db.Keys
    && forall guid <- db.Keys ::
         db'[guid] == if guid in done then Flushed(db[guid], scores[guid], minHk) else db[guid].(standing := 0)
  }

  lemma FlushNext(done: set<nat>, scores: map<nat, WeeklyScore>, db: Characters, db': Characters, minHk: nat, guid: nat)
    requires done <= scores.Keys && guid in scores && guid !in done && guid in db
    requires FlushedFor(done, scores, db, db', minHk)
    ensures guid in db' && db'[guid] == db[guid].(standing := 0)
    ensures FlushedFor(done + {guid}, scores, db, db'[guid := Flushed(db[guid], scores[guid], minHk)], minHk)
  {
  }

  class HonorMaintenancer {
    var alliance: seq<HonorStanding>
    var horde: seq<HonorStanding>
    var inactive: seq<HonorStanding>
    var weeklyScores: map<nat, WeeklyScore>
    var lastMaintenanceDay: nat
    var nextMaintenanceDay: nat
    var markerToStart: bool

    constructor ()
      ensures alliance == horde == inactive == [] && weeklyScores == map[]
      ensures lastMaintenanceDay == nextMaintenanceDay == 0 && !markerToStart
    {
      alliance, horde, inactive := [], [], [];
      weeklyScores := map[];
      lastMaintenanceDay, nextMaintenanceDay, markerToStart := 0, 0, false;
    }

    /** Reads the result of the weekly query row by row into the scores. */
    method LoadWeeklyScores(db: Characters, harvest: map<nat, Harvest>)
      requires harvest.Keys <= db.Keys && weeklyScores == map[]
      modifies this`weeklyScores
      ensures weeklyScores.Keys == harvest.Keys
      ensures forall guid <- weeklyScores.Keys :: weeklyScores[guid] == FreshScore(db[guid], harvest[guid])
    {
      var remaining := harvest.Keys;
      while remaining != {}
        invariant remaining <= harvest.Keys && weeklyScores.Keys == harvest.Keys - remaining
        invariant forall guid <- weeklyScores.Keys :: weeklyScores[guid] == FreshScore(db[guid], harvest[guid])
        decreases remaining
      {
        var guid :| guid in remaining;
        weeklyScores := weeklyScores[guid := FreshScore(db[guid], harvest[guid])];
        remaining := remaining - {guid};
      }
    }

    ghost predicate ListsLoaded(keys: set<nat>, team: nat -> Team, minHk: nat)
      requires keys <= weeklyScores.Keys
      reads this
    {
      ThreeLists(alliance, horde, inactive, weeklyScores, keys, team, minHk)
    }

    /** Splits the scored characters over the three lists: everybody lands in exactly one. */
    method LoadStandingLists(team: nat -> Team, minHk: nat)
      requires alliance == horde == inactive == []
      modifies this`alliance, this`horde, this`inactive
      ensures ListsLoaded(weeklyScores.Keys, team, minHk)
      ensures Sorted(alliance) && Sorted(horde)
    {
      var remaining := weeklyScores.Keys;
      ghost var done: set<nat> := {};
      while remaining != {}
        invariant done + remaining == weeklyScores.Keys && done !! remaining
        invariant ListsLoaded(done, team, minHk)
        decreases remaining
      {
        var guid :| guid in remaining;
        var weeklyScore := weeklyScores[guid];
        var standing := HonorStanding(guid, weeklyScore.cp);
        OneListGrows(alliance, horde, inactive, weeklyScores, done, guid, team, minHk);
        if weeklyScore.hk < minHk || weeklyScore.account == 0 {
          inactive := inactive + [standing];
        } else if team(guid) == Alliance {
          alliance := alliance + [standing];
        } else {
          horde := horde + [standing];
        }
        remaining := remaining - {guid};
        done := done + {guid};
      }
      assert done == weeklyScores.Keys;
      SortedListIsSame(alliance, weeklyScores, done, team, minHk, Active(Alliance));
      SortedListIsSame(horde, weeklyScores, done, team, minHk, Active(Horde));
      alliance := SortStandings(alliance);
      horde := SortStandings(horde);
    }

    function StandingListByTeam(team: Team): seq<HonorStanding>
      reads this`alliance, this`horde
    {
      if team == Alliance then alliance else horde
    }

    /** One character's earning, decay and cap. */
    method Pay(score: WeeklyScore, position: nat, scores: HonorScores) returns (weeklyScore: WeeklyScore)
      requires |scores.fx| == 15 && |scores.fy| == 15 && |scores.brk| == 14
      requires scores.brk[0] > 0 && scores.fx[0] <= score.cp
      ensures SegmentFrom(score.cp, scores, 0) > 0 && weeklyScore == Paid(score, Earning(score.cp, scores), position)
    {
      weeklyScore := score;
      var earning := CalculateRpEarning(weeklyScore.cp, scores);
      weeklyScore := weeklyScore.(earning := earning);
      weeklyScore := weeklyScore.(newRp := CalculateRpDecay(weeklyScore.earning, weeklyScore.oldRp));
      weeklyScore := weeklyScore.(newRp := Min(MaximumRpAtLevel(weeklyScore.level), weeklyScore.newRp));
      weeklyScore := weeklyScore.(standing := position);
    }

    /** Pays one sorted list along its own curve, first position first; nobody else changes. */
    method DistributeRankPoints(team: Team)
      requires Sorted(StandingListByTeam(team)) && NonNegative(StandingListByTeam(team))
      requires Registered(StandingListByTeam(team), weeklyScores)
      modifies this`weeklyScores
      ensures weeklyScores.Keys == old(weeklyScores.Keys)
      ensures PaidAlong(StandingListByTeam(team), old(weeklyScores), weeklyScores)
    {
      var standings := StandingListByTeam(team);
      if standings == [] {
        return;
      }
      var scores := GenerateScores(standings);
      CurveStarts(scores, standings);
      var position := 1;
      while position <= |standings|
        invariant 1 <= position <= |standings| + 1
        invariant weeklyScores.Keys == old(weeklyScores.Keys)
        invariant PaidUpTo(standings, position - 1, scores, old(weeklyScores), weeklyScores)
      {
        NotYetPaid(standings, position - 1, scores, old(weeklyScores), weeklyScores);
        var guid := standings[position - 1].guid;
        var weeklyScore := weeklyScores[guid];
        weeklyScore := Pay(weeklyScore, position, scores);
        PayNext(standings, position - 1, scores, old(weeklyScores), weeklyScores);
        weeklyScores := weeklyScores[guid := weeklyScore];
        position := position + 1;
      }
    }

    /** Decays everybody on the inactive list. */
    method InactiveDecayRankPoints()
      requires Registered(inactive, weeklyScores)
      modifies this`weeklyScores
      ensures weeklyScores.Keys == old(weeklyScores.Keys)
      ensures forall guid <- weeklyScores.Keys :: 
        weeklyScores[guid] == AfterInactivity(old(weeklyScores)[guid], Listed(inactive, guid))
    {
      var i := 0;
      while i < |inactive|
        invariant 0 <= i <= |inactive|
        invariant weeklyScores.Keys == old(weeklyScores.Keys)
        invariant forall guid <- weeklyScores.Keys :: 
          weeklyScores[guid] == AfterInactivity(old(weeklyScores)[guid], Listed(inactive[..i], guid))
      {
        var guid := inactive[i].guid;
        assert inactive[i] in inactive;
        assert inactive[..i + 1] == inactive[..i] + [inactive[i]];
        var weeklyScore := weeklyScores[guid];
        weeklyScore := weeklyScore.(newRp := CalculateRpDecay(0.0, weeklyScore.oldRp));
        weeklyScores := weeklyScores[guid := weeklyScore];
        i := i + 1;
      }
      assert inactive[..i] == inactive;
    }

    /** Resets every standing, writes the scored rows back, and deletes the contributions before the week's
        last day. */
    method FlushRankPoints(db: Characters, rows: seq<CpRow>, minHk: nat) returns (db': Characters, rows': seq<CpRow>)
      requires weeklyScores.Keys <= db.Keys
      ensures rows' == Select(rows, Since(GetWeekEndDay()))
      ensures FlushedFor(weeklyScores.Keys, weeklyScores, db, db', minHk)
    {
      db' := map guid | guid in db :: db[guid].(standing := 0);
      var remaining := weeklyScores.Keys;
      ghost var done: set<nat> := {};
      while remaining != {}
        invariant done + remaining == weeklyScores.Keys && done !! remaining
        invariant FlushedFor(done, weeklyScores, db, db', minHk)
        decreases remaining
      {
        var guid :| guid in remaining;
        FlushNext(done, weeklyScores, db, db', minHk, guid);
        var score := weeklyScores[guid];
        var current := CalculateRank(score.newRp, 0, minHk);
        var highest := InfoOfRank(score.highestRank);
        var highestRank := score.highestRank;
        if current.visualRank > 0 && current.visualRank > highest.visualRank {
          highestRank := current.rank;
        }
        assert highestRank == HigherRank(score.newRp, score.highestRank, minHk);
        var row := db'[guid];
        row := row.(
          highestRank := highestRank, rankPoints := RoundToTenth(score.newRp), standing := score.standing,
          lastWeekHk := score.hk, storedHk := row.storedHk + score.hk, storedDk := row.storedDk + score.dk,
          lastWeekCp := RoundToTenth(score.cp));
        assert row == Flushed(db[guid], score, minHk);
        db' := db'[guid := row];
        done, remaining := done + {guid}, remaining - {guid};
      }
      assert done == weeklyScores.Keys;
      rows' := Select(rows, Since(GetWeekEndDay()));
    }

    function GetWeekBeginDay(): nat
      reads this`lastMaintenanceDay
    {
      lastMaintenanceDay
    }

    function GetWeekEndDay(): nat
      reads this`lastMaintenanceDay
    {
      lastMaintenanceDay + 6
    }

    method ToggleMaintenanceMarker()
      modifies this`markerToStart
      ensures markerToStart == !old(markerToStart)
    {
      markerToStart := !markerToStart;
    }

    /** A next day other than zero is not stored; nobody passes one. */
    method SetMaintenanceDays(last: nat, next: nat)
      modifies this`lastMaintenanceDay, this`nextMaintenanceDay
      ensures lastMaintenanceDay == last
      ensures nextMaintenanceDay == if next == 0 then last + 7 else old(nextMaintenanceDay)
    {
      lastMaintenanceDay := last;
      if next == 0 {
        nextMaintenanceDay := lastMaintenanceDay + 7;
      }
    }

    /** From the next maintenance day on, the server is told to restart. */
    method CheckMaintenanceDay(gameDay: nat)
      modifies this`markerToStart
      ensures markerToStart == (old(markerToStart) || gameDay >= nextMaintenanceDay)
    {
      if gameDay >= nextMaintenanceDay && !markerToStart {
        ToggleMaintenanceMarker();
      }
    }

    /** One maintenance of a freshly started server, if it is due. */
    method DoMaintenance(db: Characters, rows: seq<CpRow>, harvest: map<nat, Harvest>, team: nat -> Team, minHk: nat)
      returns (db': Characters, rows': seq<CpRow>, ghost earnings: map<nat, real>)
      requires alliance == horde == inactive == [] && weeklyScores == map[]
      requires harvest.Keys <= db.Keys && forall guid <- harvest.Keys :: harvest[guid].cp >= 0.0
      modifies this
      ensures !markerToStart
      ensures if !old(markerToStart) then
                && db' == db && rows' == rows
                && lastMaintenanceDay == old(lastMaintenanceDay) && nextMaintenanceDay == old(nextMaintenanceDay)
              else
                && WeekStep(db, db', harvest, team, minHk, earnings)
                && rows' == Select(rows, Since(old(lastMaintenanceDay) + 6))
                && lastMaintenanceDay == old(nextMaintenanceDay) && nextMaintenanceDay == lastMaintenanceDay + 7
    {
      if !markerToStart {
        earnings := map[];
        return db, rows, earnings;
      }
      db', rows', earnings := FinishWeek(db, rows, harvest, team, minHk);
      ToggleMaintenanceMarker();
      SetMaintenanceDays(nextMaintenanceDay, 0);
    }

    /** The work of a maintenance, from the scores to the flush. */
    method FinishWeek(db: Characters, rows: seq<CpRow>, harvest: map<nat, Harvest>, team: nat -> Team, minHk: nat)
      returns (db': Characters, rows': seq<CpRow>, ghost earnings: map<nat, real>)
      requires alliance == horde == inactive == [] && weeklyScores == map[]
      requires harvest.Keys <= db.Keys && forall guid <- harvest.Keys :: harvest[guid].cp >= 0.0
      modifies this`alliance, this`horde, this`inactive, this`weeklyScores
      ensures WeekStep(db, db', harvest, team, minHk, earnings)
      ensures rows' == Select(rows, Since(GetWeekEndDay()))
    {
      LoadWeeklyScores(db, harvest);
      ghost var s0 := weeklyScores;
      LoadStandingLists(team, minHk);
      ghost var a, h, n := alliance, horde, inactive;
      ListsAreReady(a, h, n, s0, team, minHk);
      DistributeRankPoints(Alliance);
      ghost var s1 := weeklyScores;
      StillReady(a, h, s0, s1);
      StillReady(a, n, s0, s1);
      DistributeRankPoints(Horde);
      ghost var s2 := weeklyScores;
      StillReady(h, n, s1, s2);
      InactiveDecayRankPoints();
      ghost var s3 := weeklyScores;
      StepsHold(db, harvest, team, minHk, a, h, n, s0, s1, s2, s3);
      db', rows' := FlushRankPoints(db, rows, minHk);
      earnings := map guid | guid in harvest && GroupIn(db, harvest, team, minHk, guid) != Inactive :: s3[guid].earning;
      WeekAddsUp(db, db', harvest, team, minHk, a, h, n, s0, s1, s2, s3, earnings);
    }
  }

  /** The first n standings of a list were paid along one curve and nobody else changed. */
  ghost predicate PaidUpTo(standings: seq<HonorStanding>, n: nat, sc: HonorScores,
                           before: map<nat, WeeklyScore>, after: map<nat, WeeklyScore>)
    requires n <= |standings| && |sc.fx| == 15 && |sc.fy| == 15 && |sc.brk| == 14
  {
    && before.Keys == after.Keys
    && (forall s <- standings :: s.guid in before)
    && (forall guid <- after.Keys ::
          (forall i :: 0 <= i < n ==> standings[i].guid != guid) ==> after[guid] == before[guid])
    && (forall i :: 0 <= i < n ==>
          && SegmentFrom(standings[i].cp, sc, 0) > 0
          && after[standings[i].guid] == Paid(before[standings[i].guid], Earning(standings[i].cp, sc), i + 1))
  }

  lemma CurveStarts(sc: HonorScores, standings: seq<HonorStanding>)
    requires standings != [] && IsScoresOf(sc, standings)
    ensures sc.brk[0] > 0 && sc.fx[0] == 0.0
  {
    BreakPointOrder(|standings|, 0, 0);
  }

  lemma NotYetPaid(standings: seq<HonorStanding>, n: nat, sc: HonorScores,
                   before: map<nat, WeeklyScore>, after: map<nat, WeeklyScore>)
    requires n < |standings| && |sc.fx| == 15 && |sc.fy| == 15 && |sc.brk| == 14
    requires PaidUpTo(standings, n, sc, before, after) && Registered(standings, before) && NonNegative(standings)
    ensures standings[n].guid in after && after[standings[n].guid] == before[standings[n].guid]
    ensures after[standings[n].guid].cp == standings[n].cp >= 0.0
  {
    assert standings[n] in standings;
  }

  lemma PayNext(standings: seq<HonorStanding>, n: nat, sc: HonorScores,
                before: map<nat, WeeklyScore>, after: map<nat, WeeklyScore>)
    requires n < |standings| && |sc.fx| == 15 && |sc.fy| == 15 && |sc.brk| == 14
    requires PaidUpTo(standings, n, sc, before, after)
    requires DistinctGuids(standings)
    requires SegmentFrom(standings[n].cp, sc, 0) > 0
    ensures standings[n] in standings && after[standings[n].guid] == before[standings[n].guid]
    ensures PaidUpTo(standings, n + 1, sc, before,
                     after[standings[n].guid := Paid(before[standings[n].guid], Earning(standings[n].cp, sc), n + 1)])
  {
  }

  /** How DistributeRankPoints changes the scores of the characters on one list. */
  ghost predicate PaidAlong(standings: seq<HonorStanding>, before: map<nat, WeeklyScore>,
                            after: map<nat, WeeklyScore>)
  {
    if standings == [] then after == before
    else exists sc :: IsScoresOf(sc, standings) && PaidUpTo(standings, |standings|, sc, before, after)
  }

  /** The same for what matters later: everybody on the list holds a position and was paid between
      0 and 13000 points, in the order of contributions. */
  ghost predicate PaidFairly(standings: seq<HonorStanding>, before: map<nat, WeeklyScore>, after: map<nat, WeeklyScore>)
    requires before.Keys == after.Keys
    requires forall s <- standings :: s.guid in before
  {
    && (forall s <- standings :: var score := after[s.guid];
          && score.standing > 0 && 0.0 <= score.earning <= 13000.0
          && score == Paid(before[s.guid], score.earning, score.standing))
    && (forall s <- standings, t <- standings :: s.cp <= t.cp ==> after[s.guid].earning <= after[t.guid].earning)
    && (forall i :: 0 <= i < |standings| ==> after[standings[i].guid].standing == i + 1)
    && (forall guid <- after.Keys :: (forall s <- standings :: s.guid != guid) ==> after[guid] == before[guid])
  }

  /** The predicate PaidFairly for the standing at one place. */
  ghost predicate PaidAt(standings: seq<HonorStanding>, sc: HonorScores, before: map<nat, WeeklyScore>,
                         after: map<nat, WeeklyScore>, i: nat)
    requires i < |standings| && |sc.fx| == 15 && |sc.fy| == 15 && |sc.brk| == 14
    requires standings[i].guid in before && standings[i].guid in after
  {
    var s, score := standings[i], after[standings[i].guid];
    && score.standing == i + 1 && 0.0 <= score.earning <= 13000.0
    && score == Paid(before[s.guid], score.earning, score.standing)
    && SegmentFrom(s.cp, sc, 0) > 0 && score.earning == Earning(s.cp, sc)
  }

  lemma PaidOne(standings: seq<HonorStanding>, sc: HonorScores, k: nat, before: map<nat, WeeklyScore>,
                after: map<nat, WeeklyScore>, i: nat)
    requires i < |standings| && NonNegative(standings) && CurveShape(sc, k, standings[0].cp)
    requires PaidUpTo(standings, |standings|, sc, before, after)
    ensures standings[i].guid in before && standings[i].guid in after && PaidAt(standings, sc, before, after, i)
  {
    EarningBounds(standings[i].cp, sc, k, standings[0].cp);
    assert standings[i] in standings;
  }

  lemma PaidInTurn(standings: seq<HonorStanding>, sc: HonorScores, k: nat, before: map<nat, WeeklyScore>,
                   after: map<nat, WeeklyScore>, s: HonorStanding, t: HonorStanding)
    requires s in standings && t in standings && s.cp <= t.cp
    requires NonNegative(standings) && CurveShape(sc, k, standings[0].cp)
    requires PaidUpTo(standings, |standings|, sc, before, after)
    ensures s.guid in after && t.guid in after && after[s.guid].earning <= after[t.guid].earning
  {
    var i :| 0 <= i < |standings| && standings[i] == s;
    var j :| 0 <= j < |standings| && standings[j] == t;
    PaidOne(standings, sc, k, before, after, i);
    PaidOne(standings, sc, k, before, after, j);
    EarningMonotone(s.cp, t.cp, sc, k, standings[0].cp);
  }

  lemma PaidUpToIsFair(standings: seq<HonorStanding>, sc: HonorScores, k: nat, before: map<nat, WeeklyScore>,
                       after: map<nat, WeeklyScore>)
    requires standings != [] && NonNegative(standings) && CurveShape(sc, k, standings[0].cp)
    requires PaidUpTo(standings, |standings|, sc, before, after)
    ensures PaidFairly(standings, before, after)
  {
    forall i | 0 <= i < |standings|
      ensures PaidAt(standings, sc, before, after, i)
    {
      PaidOne(standings, sc, k, before, after, i);
    }
    forall s <- standings
      ensures var score := after[s.guid];
              && score.standing > 0 && 0.0 <= score.earning <= 13000.0
              && score == Paid(before[s.guid], score.earning, score.standing)
    {
      var i :| 0 <= i < |standings| && standings[i] == s;
      assert PaidAt(standings, sc, before, after, i);
    }
    forall s <- standings, t <- standings | s.cp <= t.cp
      ensures after[s.guid].earning <= after[t.guid].earning
    {
      PaidInTurn(standings, sc, k, before, after, s, t);
    }
  }

  lemma PaidAlongIsFair(standings: seq<HonorStanding>, before: map<nat, WeeklyScore>, after: map<nat, WeeklyScore>)
    requires Sorted(standings) && NonNegative(standings)
    requires PaidAlong(standings, before, after)
    ensures before.Keys == after.Keys && forall s <- standings :: s.guid in before
    ensures PaidFairly(standings, before, after)
  {
    if standings != [] {
      var sc :| IsScoresOf(sc, standings) && PaidUpTo(standings, |standings|, sc, before, after);
      var k := TopGroupExists(sc, standings);
      ScoresHaveShape(sc, standings, k);
      PaidUpToIsFair(standings, sc, k, before, after);
    }
  }

  /** Every standing on the list belongs to a score, no two to the same one. */
  ghost predicate Registered(standings: seq<HonorStanding>, scores: map<nat, WeeklyScore>) {
    && DistinctGuids(standings)
    && (forall s <- standings :: s.guid in scores && s.cp == scores[s.guid].cp)
  }

  lemma PaidKeepsRegistered(paid: seq<HonorStanding>, standings: seq<HonorStanding>,
                            before: map<nat, WeeklyScore>, after: map<nat, WeeklyScore>)
    requires before.Keys == after.Keys && (forall s <- paid :: s.guid in before)
    requires PaidFairly(paid, before, after) && Registered(standings, before)
    ensures Registered(standings, after)
  {
    forall s <- standings
      ensures s.cp == after[s.guid].cp
    {
      if t :| t in paid && t.guid == s.guid {
        assert after[t.guid] == Paid(before[t.guid], after[t.guid].earning, after[t.guid].standing);
      }
    }
  }

  lemma ListFacts(standings: seq<HonorStanding>, scores: map<nat, WeeklyScore>,
                  team: nat -> Team, minHk: nat, group: Group)
    requires Lists(standings, scores, scores.Keys, team, minHk, group)
    requires forall guid <- scores.Keys :: scores[guid].cp >= 0.0
    ensures NonNegative(standings) && Registered(standings, scores)
    ensures Roster(standings, scores, team, minHk, group)
  {
    assert forall i :: 0 <= i < |standings| ==> standings[i] in standings;
    forall guid <- scores.Keys | GroupOf(scores[guid], team(guid), minHk) == group
      ensures HonorStanding(guid, scores[guid].cp) in standings
    {
    }
  }

  lemma ListsAreReady(alliance: seq<HonorStanding>, horde: seq<HonorStanding>, inactive: seq<HonorStanding>,
                      scores: map<nat, WeeklyScore>, team: nat -> Team, minHk: nat)
    requires ThreeLists(alliance, horde, inactive, scores, scores.Keys, team, minHk)
    requires forall guid <- scores.Keys :: scores[guid].cp >= 0.0
    ensures Ready(alliance, scores) && Ready(horde, scores) && Ready(inactive, scores)
  {
    ListFacts(alliance, scores, team, minHk, Active(Alliance));
    ListFacts(horde, scores, team, minHk, Active(Horde));
    ListFacts(inactive, scores, team, minHk, Inactive);
  }

  /** A list that can be paid or decayed. */
  ghost predicate Ready(standings: seq<HonorStanding>, scores: map<nat, WeeklyScore>) {
    NonNegative(standings) && Registered(standings, scores)
  }

  /** Paying one list leaves another one ready. */
  lemma StillReady(paid: seq<HonorStanding>, standings: seq<HonorStanding>, before: map<nat, WeeklyScore>,
                   after: map<nat, WeeklyScore>)
    requires Sorted(paid) && Ready(paid, before) && PaidAlong(paid, before, after) && Ready(standings, before)
    ensures Ready(standings, after)
  {
    PaidAlongIsFair(paid, before, after);
    PaidKeepsRegistered(paid, standings, before, after);
  }

  /** The list of each group, as ListFacts states it. */
  ghost predicate Roster(standings: seq<HonorStanding>, scores: map<nat, WeeklyScore>,
                         team: nat -> Team, minHk: nat, group: Group)
  {
    forall guid <- scores.Keys ::
      && (Listed(standings, guid) <==> GroupOf(scores[guid], team(guid), minHk) == group)
      && (GroupOf(scores[guid], team(guid), minHk) == group ==> HonorStanding(guid, scores[guid].cp) in standings)
  }

  /** A paid list pays the members of its group and nobody else. */
  lemma PaidByGroup(standings: seq<HonorStanding>, s0: map<nat, WeeklyScore>, before: map<nat, WeeklyScore>,
                    after: map<nat, WeeklyScore>, team: nat -> Team, minHk: nat, group: Group, guid: nat)
    requires before.Keys == after.Keys == s0.Keys && guid in s0
    requires Roster(standings, s0, team, minHk, group)
    requires forall s <- standings :: s.guid in s0
    requires PaidFairly(standings, before, after)
    ensures if GroupOf(s0[guid], team(guid), minHk) == group
            then after[guid].standing > 0 && 0.0 <= after[guid].earning <= 13000.0
                 && after[guid] == Paid(before[guid], after[guid].earning, after[guid].standing)
            else after[guid] == before[guid]
  {
    if GroupOf(s0[guid], team(guid), minHk) == group {
      assert HonorStanding(guid, s0[guid].cp) in standings;
    }
  }

  /** Follows one character through the two paid lists and the decayed one. */
  lemma ScoreAfterLists(alliance: seq<HonorStanding>, horde: seq<HonorStanding>, inactive: seq<HonorStanding>,
                        s0: map<nat, WeeklyScore>, s1: map<nat, WeeklyScore>, s2: map<nat, WeeklyScore>,
                        s3: map<nat, WeeklyScore>, team: nat -> Team, minHk: nat, guid: nat)
    requires s0.Keys == s1.Keys == s2.Keys == s3.Keys && guid in s0
    requires Roster(alliance, s0, team, minHk, Active(Alliance))
    requires Roster(horde, s0, team, minHk, Active(Horde))
    requires Roster(inactive, s0, team, minHk, Inactive)
    requires forall s <- alliance :: s.guid in s0
    requires forall s <- horde :: s.guid in s0
    requires PaidFairly(alliance, s0, s1) && PaidFairly(horde, s1, s2)
    requires s3[guid] == AfterInactivity(s2[guid], Listed(inactive, guid))
    ensures match GroupOf(s0[guid], team(guid), minHk)
            case Active(t) => s3[guid].standing > 0 && 0.0 <= s3[guid].earning <= 13000.0
                              && s3[guid] == Paid(s0[guid], s3[guid].earning, s3[guid].standing)
                              && s3[guid] == (if t == Alliance then s1[guid] else s2[guid])
            case Inactive => s3[guid] == AfterInactivity(s0[guid], true)
  {
    PaidByGroup(alliance, s0, s0, s1, team, minHk, Active(Alliance), guid);
    PaidByGroup(horde, s0, s1, s2, team, minHk, Active(Horde), guid);
    match GroupOf(s0[guid], team(guid), minHk)
    case Active(Alliance) =>
    case Active(Horde) =>
    case Inactive =>
  }

  lemma PaidInOrder(standings: seq<HonorStanding>, s0: map<nat, WeeklyScore>, before: map<nat, WeeklyScore>,
                    after: map<nat, WeeklyScore>, team: nat -> Team, minHk: nat, group: Group, a: nat, b: nat)
    requires before.Keys == after.Keys == s0.Keys && a in s0 && b in s0
    requires Roster(standings, s0, team, minHk, group)
    requires GroupOf(s0[a], team(a), minHk) == GroupOf(s0[b], team(b), minHk) == group
    requires forall s <- standings :: s.guid in s0
    requires PaidFairly(standings, before, after)
    requires s0[a].cp <= s0[b].cp
    ensures after[a].earning <= after[b].earning
  {
    var s, t := HonorStanding(a, s0[a].cp), HonorStanding(b, s0[b].cp);
    assert s in standings && t in standings;
  }

  /** Everything the steps of one maintenance establish about the scores. */
  ghost predicate Steps(db: Characters, harvest: map<nat, Harvest>, team: nat -> Team, minHk: nat,
                        alliance: seq<HonorStanding>, horde: seq<HonorStanding>, inactive: seq<HonorStanding>,
                        s0: map<nat, WeeklyScore>, s1: map<nat, WeeklyScore>, s2: map<nat, WeeklyScore>,
                        s3: map<nat, WeeklyScore>)
  {
    && harvest.Keys <= db.Keys
    && s0.Keys == s1.Keys == s2.Keys == s3.Keys == harvest.Keys
    && (forall guid <- s0.Keys :: s0[guid] == FreshScore(db[guid], harvest[guid]))
    && Roster(alliance, s0, team, minHk, Active(Alliance))
    && Roster(horde, s0, team, minHk, Active(Horde))
    && Roster(inactive, s0, team, minHk, Inactive)
    && (forall s <- alliance :: s.guid in s0)
    && (forall s <- horde :: s.guid in s0)
    && Sorted(alliance) && Sorted(horde)
    && PaidFairly(alliance, s0, s1) && PaidFairly(horde, s1, s2)
    && (forall guid <- s3.Keys :: s3[guid] == AfterInactivity(s2[guid], Listed(inactive, guid)))
  }

  lemma StepsHold(db: Characters, harvest: map<nat, Harvest>, team: nat -> Team, minHk: nat,
                  alliance: seq<HonorStanding>, horde: seq<HonorStanding>, inactive: seq<HonorStanding>,
                  s0: map<nat, WeeklyScore>, s1: map<nat, WeeklyScore>, s2: map<nat, WeeklyScore>,
                  s3: map<nat, WeeklyScore>)
    requires harvest.Keys <= db.Keys && s0.Keys == harvest.Keys == s1.Keys == s2.Keys == s3.Keys
    requires forall guid <- harvest.Keys :: harvest[guid].cp >= 0.0
    requires forall guid <- s0.Keys :: s0[guid] == FreshScore(db[guid], harvest[guid])
    requires ThreeLists(alliance, horde, inactive, s0, s0.Keys, team, minHk) && Sorted(alliance) && Sorted(horde)
    requires PaidAlong(alliance, s0, s1) && PaidAlong(horde, s1, s2)
    requires forall guid <- s3.Keys :: s3[guid] == AfterInactivity(s2[guid], Listed(inactive, guid))
    ensures Steps(db, harvest, team, minHk, alliance, horde, inactive, s0, s1, s2, s3)
  {
    ListFacts(alliance, s0, team, minHk, Active(Alliance));
    ListFacts(horde, s0, team, minHk, Active(Horde));
    ListFacts(inactive, s0, team, minHk, Inactive);
    PaidAlongIsFair(alliance, s0, s1);
    PaidAlongIsFair(horde, s1, s2);
  }

  lemma RowsAddUp(db: Characters, db': Characters, harvest: map<nat, Harvest>, team: nat -> Team, minHk: nat,
                  alliance: seq<HonorStanding>, horde: seq<HonorStanding>, inactive: seq<HonorStanding>,
                  s0: map<nat, WeeklyScore>, s1: map<nat, WeeklyScore>, s2: map<nat, WeeklyScore>,
                  s3: map<nat, WeeklyScore>, guid: nat)
    requires Steps(db, harvest, team, minHk, alliance, horde, inactive, s0, s1, s2, s3)
    requires guid in harvest && guid in db' && db'[guid] == Flushed(db[guid], s3[guid], minHk)
    ensures var active := GroupIn(db, harvest, team, minHk, guid) != Inactive;
            && (active ==> 0.0 <= s3[guid].earning <= 13000.0)
            && RowAfter(db[guid], db'[guid], true, active, if active then s3[guid].earning else 0.0, minHk)
    ensures Tallied(db[guid], db'[guid], harvest[guid])
  {
    ScoreAfterLists(alliance, horde, inactive, s0, s1, s2, s3, team, minHk, guid);
    assert s3[guid].hk == s0[guid].hk && s3[guid].dk == s0[guid].dk && s3[guid].cp == s0[guid].cp;
  }

  lemma EarningsInOrder(db: Characters, harvest: map<nat, Harvest>, team: nat -> Team, minHk: nat,
                        alliance: seq<HonorStanding>, horde: seq<HonorStanding>, inactive: seq<HonorStanding>,
                        s0: map<nat, WeeklyScore>, s1: map<nat, WeeklyScore>, s2: map<nat, WeeklyScore>,
                        s3: map<nat, WeeklyScore>, a: nat, b: nat)
    requires Steps(db, harvest, team, minHk, alliance, horde, inactive, s0, s1, s2, s3)
    requires a in harvest && b in harvest && team(a) == team(b) && harvest[a].cp <= harvest[b].cp
    requires GroupIn(db, harvest, team, minHk, a) != Inactive && GroupIn(db, harvest, team, minHk, b) != Inactive
    ensures s3[a].earning <= s3[b].earning
  {
    ScoreAfterLists(alliance, horde, inactive, s0, s1, s2, s3, team, minHk, a);
    ScoreAfterLists(alliance, horde, inactive, s0, s1, s2, s3, team, minHk, b);
    if team(a) == Alliance {
      PaidInOrder(alliance, s0, s0, s1, team, minHk, Active(Alliance), a, b);
    } else {
      PaidInOrder(horde, s0, s1, s2, team, minHk, Active(Horde), a, b);
    }
  }

  lemma PositionOf(standings: seq<HonorStanding>, s0: map<nat, WeeklyScore>, before: map<nat, WeeklyScore>,
                   after: map<nat, WeeklyScore>, team: nat -> Team, minHk: nat, group: Group, a: nat) returns (i: nat)
    requires before.Keys == after.Keys == s0.Keys && a in s0
    requires Roster(standings, s0, team, minHk, group) && GroupOf(s0[a], team(a), minHk) == group
    requires forall s <- standings :: s.guid in s0
    requires PaidFairly(standings, before, after)
    ensures i < |standings| && standings[i] == HonorStanding(a, s0[a].cp) && after[a].standing == i + 1
  {
    i :| 0 <= i < |standings| && standings[i] == HonorStanding(a, s0[a].cp);
  }

  lemma ListIsRanked(standings: seq<HonorStanding>, s0: map<nat, WeeklyScore>, before: map<nat, WeeklyScore>,
                     after: map<nat, WeeklyScore>, team: nat -> Team, minHk: nat, group: Group, a: nat, b: nat)
    requires before.Keys == after.Keys == s0.Keys && a in s0 && b in s0 && a != b && Sorted(standings)
    requires Roster(standings, s0, team, minHk, group)
    requires GroupOf(s0[a], team(a), minHk) == GroupOf(s0[b], team(b), minHk) == group
    requires forall s <- standings :: s.guid in s0
    requires PaidFairly(standings, before, after)
    ensures after[a].standing != after[b].standing
    ensures s0[a].cp > s0[b].cp ==> after[a].standing < after[b].standing
  {
    var i := PositionOf(standings, s0, before, after, team, minHk, group, a);
    var j := PositionOf(standings, s0, before, after, team, minHk, group, b);
  }

  lemma NoPositionIsLeftOut(standings: seq<HonorStanding>, s0: map<nat, WeeklyScore>, before: map<nat, WeeklyScore>,
                            after: map<nat, WeeklyScore>, team: nat -> Team, minHk: nat, group: Group, a: nat)
    returns (b: nat)
    requires before.Keys == after.Keys == s0.Keys && a in s0
    requires Roster(standings, s0, team, minHk, group) && GroupOf(s0[a], team(a), minHk) == group
    requires forall s <- standings :: s.guid in s0
    requires PaidFairly(standings, before, after) && after[a].standing > 1
    ensures b in s0 && GroupOf(s0[b], team(b), minHk) == group && after[b].standing == after[a].standing - 1
  {
    var i := PositionOf(standings, s0, before, after, team, minHk, group, a);
    assert standings[i - 1] in standings;
    b := standings[i - 1].guid;
  }

  lemma StandingOfActive(db: Characters, db': Characters, harvest: map<nat, Harvest>, team: nat -> Team, minHk: nat,
                         alliance: seq<HonorStanding>, horde: seq<HonorStanding>, inactive: seq<HonorStanding>,
                         s0: map<nat, WeeklyScore>, s1: map<nat, WeeklyScore>, s2: map<nat, WeeklyScore>,
                         s3: map<nat, WeeklyScore>, a: nat)
    requires Steps(db, harvest, team, minHk, alliance, horde, inactive, s0, s1, s2, s3)
    requires FlushedFor(s3.Keys, s3, db, db', minHk)
    requires a in harvest && GroupIn(db, harvest, team, minHk, a) != Inactive
    ensures a in s0 && a in s1 && a in s2
    ensures GroupOf(s0[a], team(a), minHk) == Active(team(a)) && s0[a].cp == harvest[a].cp
    ensures db'[a].standing == (if team(a) == Alliance then s1[a] else s2[a]).standing
  {
    ScoreAfterLists(alliance, horde, inactive, s0, s1, s2, s3, team, minHk, a);
  }

  lemma PairIsRanked(db: Characters, db': Characters, harvest: map<nat, Harvest>, team: nat -> Team, minHk: nat,
                     alliance: seq<HonorStanding>, horde: seq<HonorStanding>, inactive: seq<HonorStanding>,
                     s0: map<nat, WeeklyScore>, s1: map<nat, WeeklyScore>, s2: map<nat, WeeklyScore>,
                     s3: map<nat, WeeklyScore>, a: nat, b: nat)
    requires Steps(db, harvest, team, minHk, alliance, horde, inactive, s0, s1, s2, s3)
    requires FlushedFor(s3.Keys, s3, db, db', minHk)
    requires a in harvest && GroupIn(db, harvest, team, minHk, a) != Inactive
    requires b in harvest && GroupIn(db, harvest, team, minHk, b) != Inactive && team(a) == team(b) && a != b
    ensures RankedPair(db', harvest, a, b)
  {
    StandingOfActive(db, db', harvest, team, minHk, alliance, horde, inactive, s0, s1, s2, s3, a);
    StandingOfActive(db, db', harvest, team, minHk, alliance, horde, inactive, s0, s1, s2, s3, b);
    if team(a) == Alliance {
      ListIsRanked(alliance, s0, s0, s1, team, minHk, Active(Alliance), a, b);
    } else {
      ListIsRanked(horde, s0, s1, s2, team, minHk, Active(Horde), a, b);
    }
  }

  lemma PositionBefore(db: Characters, db': Characters, harvest: map<nat, Harvest>, team: nat -> Team, minHk: nat,
                       alliance: seq<HonorStanding>, horde: seq<HonorStanding>, inactive: seq<HonorStanding>,
                       s0: map<nat, WeeklyScore>, s1: map<nat, WeeklyScore>, s2: map<nat, WeeklyScore>,
                       s3: map<nat, WeeklyScore>, a: nat) returns (b: nat)
    requires Steps(db, harvest, team, minHk, alliance, horde, inactive, s0, s1, s2, s3)
    requires FlushedFor(s3.Keys, s3, db, db', minHk)
    requires a in harvest && GroupIn(db, harvest, team, minHk, a) != Inactive && db'[a].standing > 1
    ensures b in harvest && GroupIn(db, harvest, team, minHk, b) != Inactive && team(a) == team(b)
    ensures db'[b].standing == db'[a].standing - 1
  {
    StandingOfActive(db, db', harvest, team, minHk, alliance, horde, inactive, s0, s1, s2, s3, a);
    if team(a) == Alliance {
      b := NoPositionIsLeftOut(alliance, s0, s0, s1, team, minHk, Active(Alliance), a);
    } else {
      b := NoPositionIsLeftOut(horde, s0, s1, s2, team, minHk, Active(Horde), a);
    }
    StandingOfActive(db, db', harvest, team, minHk, alliance, horde, inactive, s0, s1, s2, s3, b);
  }

  /** Each list's positions end up in the rows of its team. */
  lemma WeekIsRanked(db: Characters, db': Characters, harvest: map<nat, Harvest>, team: nat -> Team, minHk: nat,
                     alliance: seq<HonorStanding>, horde: seq<HonorStanding>, inactive: seq<HonorStanding>,
                     s0: map<nat, WeeklyScore>, s1: map<nat, WeeklyScore>, s2: map<nat, WeeklyScore>,
                     s3: map<nat, WeeklyScore>, earnings: map<nat, real>)
    requires Steps(db, harvest, team, minHk, alliance, horde, inactive, s0, s1, s2, s3)
    requires FlushedFor(s3.Keys, s3, db, db', minHk)
    requires earnings.Keys == set guid | guid in harvest && GroupIn(db, harvest, team, minHk, guid) != Inactive
    ensures Ranked(db', harvest, team, earnings)
  {
    forall a <- earnings.Keys, b <- earnings.Keys | team(a) == team(b) && a != b
      ensures RankedPair(db', harvest, a, b)
    {
      PairIsRanked(db, db', harvest, team, minHk, alliance, horde, inactive, s0, s1, s2, s3, a, b);
    }
    forall a <- earnings.Keys | db'[a].standing > 1
      ensures exists b <- earnings.Keys :: team(a) == team(b) && db'[b].standing == db'[a].standing - 1
    {
      var b := PositionBefore(db, db', harvest, team, minHk, alliance, horde, inactive, s0, s1, s2, s3, a);
    }
  }

  /** Loading, the two payments, the decay and the flush together make one week. */
  lemma WeekAddsUp(db: Characters, db': Characters, harvest: map<nat, Harvest>, team: nat -> Team, minHk: nat,
                   alliance: seq<HonorStanding>, horde: seq<HonorStanding>, inactive: seq<HonorStanding>,
                   s0: map<nat, WeeklyScore>, s1: map<nat, WeeklyScore>, s2: map<nat, WeeklyScore>,
                   s3: map<nat, WeeklyScore>, earnings: map<nat, real>)
    requires Steps(db, harvest, team, minHk, alliance, horde, inactive, s0, s1, s2, s3)
    requires FlushedFor(s3.Keys, s3, db, db', minHk)
    requires earnings ==
             map guid | guid in harvest && GroupIn(db, harvest, team, minHk, guid) != Inactive :: s3[guid].earning
    ensures WeekStep(db, db', harvest, team, minHk, earnings)
  {
    forall guid <- db.Keys
      ensures RowAfter(db[guid], db'[guid], guid in harvest, guid in earnings,
                       if guid in earnings then earnings[guid] else 0.0, minHk)
      ensures guid in harvest ==> Tallied(db[guid], db'[guid], harvest[guid])
    {
      if guid in harvest {
        RowsAddUp(db, db', harvest, team, minHk, alliance, horde, inactive, s0, s1, s2, s3, guid);
      }
    }
    EarningsAreFair(db, harvest, team, minHk, alliance, horde, inactive, s0, s1, s2, s3, earnings);
    WeekIsRanked(db, db', harvest, team, minHk, alliance, horde, inactive, s0, s1, s2, s3, earnings);
  }

  lemma EarningsAreFair(db: Characters, harvest: map<nat, Harvest>, team: nat -> Team, minHk: nat,
                        alliance: seq<HonorStanding>, horde: seq<HonorStanding>, inactive: seq<HonorStanding>,
                        s0: map<nat, WeeklyScore>, s1: map<nat, WeeklyScore>, s2: map<nat, WeeklyScore>,
                        s3: map<nat, WeeklyScore>, earnings: map<nat, real>)
    requires Steps(db, harvest, team, minHk, alliance, horde, inactive, s0, s1, s2, s3)
    requires earnings ==
             map guid | guid in harvest && GroupIn(db, harvest, team, minHk, guid) != Inactive :: s3[guid].earning
    ensures FairEarnings(db, harvest, team, minHk, earnings)
  {
    forall guid <- earnings.Keys
      ensures 0.0 <= earnings[guid] <= 13000.0
    {
      ScoreAfterLists(alliance, horde, inactive, s0, s1, s2, s3, team, minHk, guid);
    }
    forall a <- earnings.Keys, b <- earnings.Keys | team(a) == team(b) && harvest[a].cp <= harvest[b].cp
      ensures earnings[a] <= earnings[b]
    {
      EarningsInOrder(db, harvest, team, minHk, alliance, horde, inactive, s0, s1, s2, s3, a, b);
    }
  }
}
