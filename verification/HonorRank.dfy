/** Honor ranks: the bracket of rank points a player stands in (HonorMgr::CalculateRank). */
module HonorRank {

  const NEGATIVE_HONOR_RANK_COUNT := 4
  const POSITIVE_HONOR_RANK_COUNT := 15
  const HONOR_RANK_COUNT := 19

  datatype HonorRankInfo = HonorRankInfo(rank: int, visualRank: int, minRP: real, maxRP: real, positive: bool)

  const INIT_RANK_INFO := HonorRankInfo(0, 0, 0.0, 2000.0, true)

  /** The bracket and visible rank that belong to an internal rank number. */
  function CalculateRankInfo(prk: HonorRankInfo): HonorRankInfo {
    if prk.rank == 0 then INIT_RANK_INFO
    else
      var rank := prk.rank - NEGATIVE_HONOR_RANK_COUNT - (if prk.positive then 1 else 0);
      var scaled := rank as real * 5000.0;
      var maxRP := if scaled < 0.0 then -scaled else scaled;
      var minRP := if maxRP > 5000.0 then maxRP - 5000.0 else 2000.0;
      var visual := if prk.rank > NEGATIVE_HONOR_RANK_COUNT then prk.rank - NEGATIVE_HONOR_RANK_COUNT else -prk.rank;
      if prk.rank == 5 then HonorRankInfo(5, visual, 0.0, 2000.0, prk.positive)
      else HonorRankInfo(prk.rank, visual, minRP, maxRP, prk.positive)
  }

  function InfoOfRank(rank: int): HonorRankInfo {
    CalculateRankInfo(INIT_RANK_INFO.(rank := rank))
  }

  function CalculateRank(rankPoints: real, totalHk: nat, minHonorKills: nat): HonorRankInfo {
    if rankPoints == 0.0 then
      if totalHk >= minHonorKills then InfoOfRank(NEGATIVE_HONOR_RANK_COUNT + 1) else INIT_RANK_INFO
    else
      var positive := rankPoints > 0.0;
      var rp := if positive then rankPoints else -rankPoints;
      var rankCount := if positive then POSITIVE_HONOR_RANK_COUNT - 2 else NEGATIVE_HONOR_RANK_COUNT;
      var firstRank := if positive then NEGATIVE_HONOR_RANK_COUNT + 1 else 1;
      var rank :=
        if rp < 2000.0 then (if positive then firstRank else NEGATIVE_HONOR_RANK_COUNT)
        else if rp > (rankCount - 1) as real * 5000.0 then (if positive then HONOR_RANK_COUNT - 1 else firstRank)
        else
          var step := (rp / 5000.0).Floor + firstRank;
          if positive then step + 1 else NEGATIVE_HONOR_RANK_COUNT - step;
      CalculateRankInfo(INIT_RANK_INFO.(rank := rank, positive := positive))
  }

  /** Positive points lie in the bracket of their own rank exactly up to the last bracket's end,
      and always show a visible rank from 1 to 14. */
  lemma RankBracketsPoints(rp: real, totalHk: nat, minHonorKills: nat)
    requires rp > 0.0
    ensures var info := CalculateRank(rp, totalHk, minHonorKills);
            && 1 <= info.visualRank <= 14
            && info.minRP <= rp && info.minRP < info.maxRP
            && (rp <= info.maxRP <==> rp <= 65000.0)
  {
    if 2000.0 <= rp <= 60000.0 {
      var q := (rp / 5000.0).Floor;
      assert q as real * 5000.0 <= rp < (q + 1) as real * 5000.0;
      assert 0 <= q <= 12;
    }
  }

  /** The visible rank of positive points: the first one below 2000, then one for each 5000, up to 14. */
  lemma VisualRankOfPoints(rp: real, totalHk: nat, minHonorKills: nat)
    requires rp > 0.0
    ensures var v := CalculateRank(rp, totalHk, minHonorKills).visualRank;
            if rp < 2000.0 then v == 1
            else 2 <= v <= 14 && (v - 2) as real * 5000.0 <= rp && (v < 14 ==> rp < (v - 1) as real * 5000.0)
  {
    if 2000.0 <= rp <= 60000.0 {
      var q := (rp / 5000.0).Floor;
      assert q as real * 5000.0 <= rp < (q + 1) as real * 5000.0;
      assert 0 <= q <= 12;
    }
  }

  /** More points never show a lower rank, and two different ranks have disjoint brackets. */
  lemma RankMonotone(a: real, b: real, totalHk: nat, minHonorKills: nat)
    requires 0.0 < a <= b
    ensures var lo, hi := CalculateRank(a, totalHk, minHonorKills), CalculateRank(b, totalHk, minHonorKills);
            && lo.visualRank <= hi.visualRank
            && (lo.visualRank < hi.visualRank ==> lo.maxRP <= hi.minRP)
  {
    var q, r := (a / 5000.0).Floor, (b / 5000.0).Floor;
    assert q as real * 5000.0 <= a < (q + 1) as real * 5000.0;
    assert r as real * 5000.0 <= b < (r + 1) as real * 5000.0;
    assert q <= r;
  }

  lemma BracketStartsWhole(rp: real, totalHk: nat, minHonorKills: nat) returns (start: int)
    requires 0.0 < rp
    ensures CalculateRank(rp, totalHk, minHonorKills).minRP == start as real
  {
    var info := CalculateRank(rp, totalHk, minHonorKills);
    start := if info.rank <= 5 then 0 else if info.rank == 6 then 2000 else (info.rank - 6) * 5000;
  }

  lemma FloorStays(rp: real, start: int, end: real)
    requires start as real <= rp <= end
    ensures 0.0 <= rp.Floor as real - start as real <= end - start as real
  {
    var f := rp.Floor;
    assert f as real <= rp < (f + 1) as real;
    assert f + 1 > start;
  }

  lemma ShareFits(part: real, width: real)
    requires 0.0 <= part <= width && width > 0.0
    ensures 0.0 <= (part / width) * 255.0 <= 255.0
  {
    var t := part / width;
    assert t * width == part;
    assert t < 0.0 ==> t * width < 0.0;
    assert t > 1.0 ==> (t - 1.0) * width > 0.0;
  }

  /** The bar drawn by HonorMgr::Update fits its byte for all points up to the last bracket. */
  lemma HonorBarFits(rp: real, totalHk: nat, minHonorKills: nat)
    requires 0.0 < rp <= 65000.0
    ensures var info := CalculateRank(rp, totalHk, minHonorKills);
            info.maxRP != info.minRP
            && 0.0 <= ((rp.Floor as real - info.minRP) / (info.maxRP - info.minRP)) * 255.0 <= 255.0
  {
    RankBracketsPoints(rp, totalHk, minHonorKills);
    var info := CalculateRank(rp, totalHk, minHonorKills);
    var start := BracketStartsWhole(rp, totalHk, minHonorKills);
    FloorStays(rp, start, info.maxRP);
    ShareFits(rp.Floor as real - info.minRP, info.maxRP - info.minRP);
  }
}
