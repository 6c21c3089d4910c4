/** The weekly honor curve: `HonorMaintenancer::GenerateScores` turns a sorted standing list into
    fifteen (contribution, rank point) pairs and `CalculateRpEarning` interpolates between them.
    C++ `float` is modelled by `real`; the break points, which the code floors, are whole numbers. */
module HonorCurve {

  datatype HonorStanding = HonorStanding(guid: nat, cp: real)

  /** fx and fy have 15 entries, brk has 14 (HonorMgr.h:12-17). */
  datatype HonorScores = HonorScores(fx: seq<real>, fy: seq<real>, brk: seq<int>)

  /** The share of the standing list above each break point. */
  const FRACTION: seq<real> :=
    [1.000, 0.835, 0.687, 0.553, 0.433, 0.324, 0.225, 0.156, 0.097, 0.057, 0.032, 0.017, 0.007, 0.002]

  predicate Sorted(standings: seq<HonorStanding>) {
    forall i, j :: 0 <= i < j < |standings| ==> standings[i].cp >= standings[j].cp
  }

  predicate NonNegative(standings: seq<HonorStanding>) {
    forall i :: 0 <= i < |standings| ==> standings[i].cp >= 0.0
  }

  /** Contribution of the player at a one-based position; zero off the list. */
  function CpAt(standings: seq<HonorStanding>, position: int): real {
    if 1 <= position <= |standings| then standings[position - 1].cp else 0.0
  }

  method GetStandingCPByPosition(standings: seq<HonorStanding>, position: int) returns (cp: real)
    ensures cp == CpAt(standings, position)
  {
    var pos := 1;
    while pos <= |standings|
      invariant 1 <= pos <= |standings| + 1
      invariant !(1 <= position < pos)
    {
      if pos == position {
        return standings[pos - 1].cp;
      }
      pos := pos + 1;
    }
    cp := 0.0;
  }

  function BreakPoint(n: nat, group: nat): int
    requires group < 14
  {
    (FRACTION[group] * n as real + 0.5).Floor
  }

  function RankPointsAt(i: nat): real
    requires i < 15
  {
    if i == 0 then 0.0 else if i == 1 then 400.0 else if i == 14 then 13000.0 else (i - 1) as real * 1000.0
  }

  /** Sum of the two contributions around a break point; zero when the first one is zero. */
  function HonorAround(standings: seq<HonorStanding>, brk: int): real {
    if CpAt(standings, brk) != 0.0 then CpAt(standings, brk) + CpAt(standings, brk + 1) else 0.0
  }

  function HonorAtGroup(standings: seq<HonorStanding>, i: nat): real
    requires i < 14
  {
    HonorAround(standings, BreakPoint(|standings|, i))
  }

  /** The top scorer has been placed before group i is reached. */
  predicate TopPlacedBefore(standings: seq<HonorStanding>, i: nat)
    requires i <= 14
  {
    exists j :: 1 <= j < i && HonorAtGroup(standings, j) == 0.0
  }

  function ContributionAt(standings: seq<HonorStanding>, i: nat): real
    requires i < 15 && standings != []
  {
    if i == 0 then 0.0
    else if i == 14 then (if TopPlacedBefore(standings, 14) then 0.0 else standings[0].cp)
    else if HonorAtGroup(standings, i) != 0.0 then HonorAtGroup(standings, i) / 2.0
    else if TopPlacedBefore(standings, i) then 0.0
    else if ContributionAt(standings, i - 1) != 0.0 then standings[0].cp
    else 0.0
  }

  ghost predicate IsScoresOf(sc: HonorScores, standings: seq<HonorStanding>)
    requires standings != []
  {
    && |sc.fx| == 15 && |sc.fy| == 15 && |sc.brk| == 14
    && (forall g :: 0 <= g < 14 ==> sc.brk[g] == BreakPoint(|standings|, g))
    && (forall i :: 0 <= i < 15 ==> sc.fy[i] == RankPointsAt(i))
    && (forall i :: 0 <= i < 15 ==> sc.fx[i] == ContributionAt(standings, i))
  }

  method GenerateScores(standings: seq<HonorStanding>) returns (sc: HonorScores)
    requires standings != []
    ensures IsScoresOf(sc, standings)
  {
    var brk := seq(14, _ => 0);
    var group := 0;
    while group < 14
      invariant 0 <= group <= 14 && |brk| == 14
      invariant forall g :: 0 <= g < group ==> brk[g] == BreakPoint(|standings|, g)
    {
      brk := brk[group := (FRACTION[group] * |standings| as real + 0.5).Floor];
      group := group + 1;
    }

    var fy := seq(15, _ => 0.0);
    fy := fy[1 := 400.0];
    var i := 2;
    while i <= 13
      invariant 2 <= i <= 14 && |fy| == 15
      invariant forall j :: 0 <= j < i ==> fy[j] == RankPointsAt(j)
    {
      fy := fy[i := (i - 1) as real * 1000.0];
      i := i + 1;
    }
    fy := fy[14 := 13000.0];

    var fx := seq(15, _ => 0.0);
    var top := false;
    i := 1;
    while i <= 13
      invariant 1 <= i <= 14 && |fx| == 15
      invariant forall j :: 0 <= j < i ==> fx[j] == ContributionAt(standings, j)
      invariant top <==> TopPlacedBefore(standings, i)
    {
      var honor := 0.0;
      var tempHonor := GetStandingCPByPosition(standings, brk[i]);
      if tempHonor != 0.0 {
        honor := honor + tempHonor;
        tempHonor := GetStandingCPByPosition(standings, brk[i] + 1);
        if tempHonor != 0.0 {
          honor := honor + tempHonor;
        }
      }
      assert honor == HonorAtGroup(standings, i);
      fx := fx[i := if honor != 0.0 then honor / 2.0 else 0.0];
      if !top && honor == 0.0 {
        fx := fx[i := if fx[i - 1] != 0.0 then standings[0].cp else 0.0];
        top := true;
      }
      i := i + 1;
    }
    fx := fx[14 := if !top then standings[0].cp else 0.0];
    sc := HonorScores(fx, fy, brk);
  }

  // ---------- the shape of the curve ----------

  /** The group that holds the top scorer: the first one whose break point is empty, else the last. */
  ghost predicate IsTopGroup(sc: HonorScores, k: nat)
    requires |sc.brk| == 14
  {
    && 2 <= k <= 14
    && (forall g :: 0 <= g < k && g < 14 ==> sc.brk[g] > 0)
    && (k < 14 ==> sc.brk[k] == 0)
  }

  lemma BreakPointOrder(n: nat, g: nat, h: nat)
    requires g <= h < 14
    ensures 0 <= BreakPoint(n, h) <= BreakPoint(n, g) <= n
    ensures n > 0 && g <= 1 ==> BreakPoint(n, g) >= 1
  {
    assert FRACTION[h] <= FRACTION[g] <= 1.0;
    assert 0.0 <= FRACTION[h] * n as real <= FRACTION[g] * n as real <= n as real;
  }

  lemma TopGroupExists(sc: HonorScores, standings: seq<HonorStanding>) returns (k: nat)
    requires standings != [] && IsScoresOf(sc, standings)
    ensures IsTopGroup(sc, k)
  {
    BreakPointOrder(|standings|, 0, 0);
    BreakPointOrder(|standings|, 1, 1);
    k := 2;
    while k < 14 && sc.brk[k] != 0
      invariant 2 <= k <= 14
      invariant forall g :: 0 <= g < k ==> sc.brk[g] > 0
    {
      BreakPointOrder(|standings|, k, k);
      k := k + 1;
    }
  }

  /** A group below the top group averages two contributions, so it never exceeds the next one. */
  lemma HonorOrder(standings: seq<HonorStanding>, g: nat, h: nat)
    requires standings != [] && Sorted(standings) && NonNegative(standings)
    requires g <= h < 14 && BreakPoint(|standings|, h) > 0
    ensures 0.0 <= HonorAtGroup(standings, g) <= HonorAtGroup(standings, h) <= 2.0 * standings[0].cp
  {
    BreakPointOrder(|standings|, g, h);
  }

  /** What every nonnegative, descending standing list yields, whether or not zeros reach its
      break points: values rise up to the group below the top one, the top group holds either
      the top contribution or nothing, and nothing follows it. */
  ghost predicate CurveShape(sc: HonorScores, k: nat, top: real) {
    && |sc.fx| == 15 && |sc.fy| == 15 && |sc.brk| == 14
    && IsTopGroup(sc, k)
    && (forall i :: 0 <= i < 15 ==> sc.fy[i] == RankPointsAt(i))
    && sc.fx[0] == 0.0
    && (forall i, j :: 0 <= i <= j < k ==> sc.fx[i] <= sc.fx[j] <= top)
    && (sc.fx[k] == top || sc.fx[k] == 0.0)
    && (forall i :: k < i < 15 ==> sc.fx[i] == 0.0)
  }

  lemma ContributionBelowTop(standings: seq<HonorStanding>, sc: HonorScores, k: nat, i: nat)
    requires standings != [] && Sorted(standings) && NonNegative(standings)
    requires IsScoresOf(sc, standings) && IsTopGroup(sc, k)
    requires 1 <= i < k
    ensures ContributionAt(standings, i) == HonorAtGroup(standings, i) / 2.0
  {
    if HonorAtGroup(standings, i) == 0.0 && i > 1 {
      HonorOrder(standings, i - 1, i);
      assert HonorAtGroup(standings, i - 1) == 0.0;
      assert TopPlacedBefore(standings, i);
    }
  }

  lemma EmptyGroup(standings: seq<HonorStanding>, k: nat, i: nat)
    requires standings != [] && k <= i < 14 && BreakPoint(|standings|, k) == 0
    ensures HonorAtGroup(standings, i) == 0.0
  {
    BreakPointOrder(|standings|, k, i);
  }

  lemma ScoresHaveShape(sc: HonorScores, standings: seq<HonorStanding>, k: nat)
    requires standings != [] && Sorted(standings) && NonNegative(standings)
    requires IsScoresOf(sc, standings) && IsTopGroup(sc, k)
    ensures CurveShape(sc, k, standings[0].cp)
    ensures sc.fx[k] == standings[0].cp <==>
            CpAt(standings, sc.brk[1]) > 0.0 || standings[0].cp == 0.0
  {
    forall i, j | 0 <= i <= j < k
      ensures sc.fx[i] <= sc.fx[j] <= standings[0].cp
    {
      if j >= 1 { ContributionBelowTop(standings, sc, k, j); HonorOrder(standings, j, j); }
      if i >= 1 { ContributionBelowTop(standings, sc, k, i); HonorOrder(standings, i, j); }
    }
    forall i | k < i < 15
      ensures sc.fx[i] == 0.0
    {
      EmptyGroup(standings, k, k);
      if i < 14 { EmptyGroup(standings, k, i); }
    }
    TopGroupValue(sc, standings, k);
  }

  lemma TopGroupValue(sc: HonorScores, standings: seq<HonorStanding>, k: nat)
    requires standings != [] && Sorted(standings) && NonNegative(standings)
    requires IsScoresOf(sc, standings) && IsTopGroup(sc, k)
    ensures sc.fx[k] == if CpAt(standings, sc.brk[1]) > 0.0 then standings[0].cp else 0.0
    ensures CpAt(standings, sc.brk[1]) > 0.0 ==> standings[0].cp > 0.0
  {
    BreakPointOrder(|standings|, 1, 1);
    if k < 14 { EmptyGroup(standings, k, k); }
    if CpAt(standings, sc.brk[1]) > 0.0 {
      forall j | 1 <= j < k
        ensures HonorAtGroup(standings, j) != 0.0
      {
        HonorOrder(standings, 1, j);
      }
      ContributionBelowTop(standings, sc, k, k - 1);
    } else {
      assert HonorAtGroup(standings, 1) == 0.0;
      assert TopPlacedBefore(standings, k);
    }
  }

  /** Two players, the second with nothing: the first break point falls on the second player,
      the top contribution never enters the curve. */
  lemma ZeroTailLosesTheTop(sc: HonorScores, k: nat)
    requires IsScoresOf(sc, [HonorStanding(1, 5.0), HonorStanding(2, 0.0)]) && IsTopGroup(sc, k)
    ensures sc.brk[1] == 2 && sc.fx[k] == 0.0
  {
    var standings := [HonorStanding(1, 5.0), HonorStanding(2, 0.0)];
    assert BreakPoint(2, 1) == 2;
    ScoresHaveShape(sc, standings, k);
  }

  // ---------- earning ----------

  /** Where the search loop of CalculateRpEarning stops when started at i. */
  function SegmentFrom(cp: real, sc: HonorScores, i: nat): nat
    requires |sc.fx| == 15 && |sc.brk| == 14 && i <= 14
    decreases 14 - i
  {
    if i < 14 && sc.brk[i] > 0 && sc.fx[i] <= cp then SegmentFrom(cp, sc, i + 1) else i
  }

  function Interpolate(x0: real, x1: real, y0: real, y1: real, x: real): real
    requires x0 < x1
  {
    (y1 - y0) * (x - x0) / (x1 - x0) + y0
  }

  /** The value CalculateRpEarning returns; a segment of zero would read the entry before fx[0]. */
  function Earning(cp: real, sc: HonorScores): real
    requires |sc.fx| == 15 && |sc.fy| == 15 && |sc.brk| == 14
    requires SegmentFrom(cp, sc, 0) > 0
  {
    var i := SegmentFrom(cp, sc, 0);
    if sc.fx[i] > cp && cp >= sc.fx[i - 1]
    then Interpolate(sc.fx[i - 1], sc.fx[i], sc.fy[i - 1], sc.fy[i], cp)
    else sc.fy[i]
  }

  /** With a nonnegative contribution and a nonempty first group the search passes entry 0, so
      the code never reads before fx[0]; the guard keeps the divisor positive. */
  method CalculateRpEarning(cp: real, sc: HonorScores) returns (earning: real)
    requires |sc.fx| == 15 && |sc.fy| == 15 && |sc.brk| == 14
    requires sc.brk[0] > 0 && sc.fx[0] <= cp
    ensures SegmentFrom(cp, sc, 0) > 0 && earning == Earning(cp, sc)
  {
    var i := 0;
    while i < 14 && sc.brk[i] > 0 && sc.fx[i] <= cp
      invariant 0 <= i <= 14
      invariant SegmentFrom(cp, sc, i) == SegmentFrom(cp, sc, 0)
    {
      i := i + 1;
    }
    assert i > 0;
    if sc.fx[i] > cp && cp >= sc.fx[i - 1] {
      return Interpolate(sc.fx[i - 1], sc.fx[i], sc.fy[i - 1], sc.fy[i], cp);
    }
    return sc.fy[i];
  }

  lemma {:induction false} SegmentScan(cp: real, sc: HonorScores, k: nat, i: nat)
    requires |sc.fx| == 15 && |sc.brk| == 14 && IsTopGroup(sc, k) && i <= k
    ensures var s := SegmentFrom(cp, sc, i);
            i <= s <= k && (forall j :: i <= j < s ==> sc.fx[j] <= cp) && (s < k ==> sc.fx[s] > cp)
    decreases 14 - i
  {
    if i < 14 && sc.brk[i] > 0 && sc.fx[i] <= cp {
      SegmentScan(cp, sc, k, i + 1);
    }
  }

  /** The search stops at the segment that brackets the contribution. */
  lemma SegmentBracket(cp: real, sc: HonorScores, k: nat, top: real)
    requires cp >= 0.0 && CurveShape(sc, k, top)
    ensures var i := SegmentFrom(cp, sc, 0);
            && 1 <= i <= k && sc.fx[i - 1] <= cp
            && (i < k ==> cp < sc.fx[i])
            && (forall j :: 0 <= j < k ==> (j < i <==> sc.fx[j] <= cp))
  {
    SegmentScan(cp, sc, k, 0);
    assert sc.brk[0] > 0;
    SegmentScan(cp, sc, k, 1);
  }

  lemma DivideOrder(a: real, b: real, d: real)
    requires d > 0.0 && a <= b
    ensures a / d <= b / d
  {
    var q, r := a / d, b / d;
    assert q * d == a && r * d == b;
    assert q > r ==> (q - r) * d > 0.0;
  }

  lemma ScaleOrder(m: real, a: real, b: real)
    requires m >= 0.0 && a <= b
    ensures m * a <= m * b
  {
    assert m * (b - a) >= 0.0;
  }

  lemma InterpolateMonotone(x0: real, x1: real, y0: real, y1: real, a: real, b: real)
    requires x0 < x1 && a <= b && y0 <= y1
    ensures Interpolate(x0, x1, y0, y1, a) <= Interpolate(x0, x1, y0, y1, b)
  {
    ScaleOrder(y1 - y0, a - x0, b - x0);
    DivideOrder((y1 - y0) * (a - x0), (y1 - y0) * (b - x0), x1 - x0);
  }

  lemma InterpolateBounds(x0: real, x1: real, y0: real, y1: real, x: real)
    requires x0 <= x < x1 && y0 <= y1
    ensures y0 <= Interpolate(x0, x1, y0, y1, x) <= y1
  {
    InterpolateMonotone(x0, x1, y0, y1, x0, x);
    InterpolateMonotone(x0, x1, y0, y1, x, x1);
    assert (y1 - y0) * (x1 - x0) / (x1 - x0) == y1 - y0;
  }

  lemma EarningInSegment(cp: real, sc: HonorScores, k: nat, top: real)
    requires cp >= 0.0 && CurveShape(sc, k, top)
    ensures var i := SegmentFrom(cp, sc, 0);
            1 <= i <= k && sc.fy[i - 1] <= Earning(cp, sc) <= sc.fy[i]
  {
    SegmentBracket(cp, sc, k, top);
    var i := SegmentFrom(cp, sc, 0);
    if sc.fx[i] > cp {
      InterpolateBounds(sc.fx[i - 1], sc.fx[i], sc.fy[i - 1], sc.fy[i], cp);
    }
  }

  lemma EarningBounds(cp: real, sc: HonorScores, k: nat, top: real)
    requires cp >= 0.0 && CurveShape(sc, k, top)
    ensures SegmentFrom(cp, sc, 0) > 0
    ensures 0.0 <= Earning(cp, sc) <= sc.fy[k] <= 13000.0
    ensures cp >= top ==> Earning(cp, sc) == sc.fy[k]
  {
    SegmentBracket(cp, sc, k, top);
    EarningInSegment(cp, sc, k, top);
  }

  /** A larger contribution never earns fewer rank points. */
  lemma EarningMonotone(a: real, b: real, sc: HonorScores, k: nat, top: real)
    requires 0.0 <= a <= b && CurveShape(sc, k, top)
    ensures SegmentFrom(a, sc, 0) > 0 && SegmentFrom(b, sc, 0) > 0
    ensures Earning(a, sc) <= Earning(b, sc)
  {
    SegmentBracket(a, sc, k, top);
    SegmentBracket(b, sc, k, top);
    EarningInSegment(a, sc, k, top);
    EarningInSegment(b, sc, k, top);
    var i, j := SegmentFrom(a, sc, 0), SegmentFrom(b, sc, 0);
    assert forall g :: 0 <= g < k && g < i ==> sc.fx[g] <= b;
    assert i <= j;
    if i == j {
      if sc.fx[i] > b {
        InterpolateMonotone(sc.fx[i - 1], sc.fx[i], sc.fy[i - 1], sc.fy[i], a, b);
      }
    } else {
      assert sc.fy[i] <= sc.fy[j - 1];
    }
  }

  /** The point is on the straight line through the two others. */
  predicate OnLine(x0: real, x1: real, y0: real, y1: real, x: real, y: real) {
    (y - y0) * (x1 - x0) == (y1 - y0) * (x - x0)
  }

  lemma InterpolateOnLine(x0: real, x1: real, y0: real, y1: real, x: real)
    requires x0 < x1
    ensures OnLine(x0, x1, y0, y1, x, Interpolate(x0, x1, y0, y1, x))
  {
    var d, a := x1 - x0, (y1 - y0) * (x - x0);
    assert Interpolate(x0, x1, y0, y1, x) - y0 == a / d;
    assert a / d * d == a;
  }

  lemma EarningInterpolates(cp: real, sc: HonorScores, k: nat, top: real, i: nat)
    requires cp >= 0.0 && CurveShape(sc, k, top) && 1 <= i <= k && sc.fx[i - 1] <= cp < sc.fx[i]
    ensures SegmentFrom(cp, sc, 0) == i
    ensures Earning(cp, sc) == Interpolate(sc.fx[i - 1], sc.fx[i], sc.fy[i - 1], sc.fy[i], cp)
  {
    SegmentBracket(cp, sc, k, top);
  }

  /** Between two neighbouring entries of the curve, earnings lie on the straight line through both. */
  lemma EarningOnLine(cp: real, sc: HonorScores, k: nat, top: real, i: nat)
    requires cp >= 0.0 && CurveShape(sc, k, top) && 1 <= i <= k && sc.fx[i - 1] <= cp < sc.fx[i]
    ensures SegmentFrom(cp, sc, 0) > 0
    ensures OnLine(sc.fx[i - 1], sc.fx[i], sc.fy[i - 1], sc.fy[i], cp, Earning(cp, sc))
  {
    EarningInterpolates(cp, sc, k, top, i);
    InterpolateOnLine(sc.fx[i - 1], sc.fx[i], sc.fy[i - 1], sc.fy[i], cp);
  }

  /** Below the top group an entry is halfway between the contributions of the player at the break point and
      the one behind, who counts as zero past the end of the list. */
  lemma EntryIsHalfway(standings: seq<HonorStanding>, sc: HonorScores, k: nat, i: nat)
    requires standings != [] && Sorted(standings) && NonNegative(standings)
    requires IsScoresOf(sc, standings) && IsTopGroup(sc, k) && 1 <= i < k
    ensures var b := sc.brk[i];
            && 1 <= b <= |standings|
            && 2.0 * sc.fx[i] == standings[b - 1].cp + if b < |standings| then standings[b].cp else 0.0
  {
    BreakPointOrder(|standings|, i, i);
    ContributionBelowTop(standings, sc, k, i);
  }

  /** A break point is the whole number nearest to its share of the list. */
  lemma BreakPointIsNearest(standings: seq<HonorStanding>, sc: HonorScores, g: nat)
    requires standings != [] && IsScoresOf(sc, standings) && g < 14
    ensures -0.5 < sc.brk[g] as real - FRACTION[g] * |standings| as real <= 0.5
  {
  }

  /** Contributions of 10 and 4: the second player is two fifths of the way from the first entry to the second
      one, and the first one has the points of the top group. */
  lemma TwoPlayersArePaid(sc: HonorScores)
    requires IsScoresOf(sc, [HonorStanding(1, 10.0), HonorStanding(2, 4.0)])
    ensures sc.fx[1] == 2.0 && sc.fx[2] == 7.0 && sc.fx[6] == 10.0
    ensures SegmentFrom(4.0, sc, 0) > 0 && Earning(4.0, sc) == 640.0
    ensures SegmentFrom(10.0, sc, 0) > 0 && Earning(10.0, sc) == 5000.0
  {
    var standings := [HonorStanding(1, 10.0), HonorStanding(2, 4.0)];
    assert sc.brk[0] == 2 && sc.brk[1] == 2 && sc.brk[2] == 1 && sc.brk[3] == 1;
    assert sc.brk[4] == 1 && sc.brk[5] == 1 && sc.brk[6] == 0;
    assert IsTopGroup(sc, 6);
    ScoresHaveShape(sc, standings, 6);
    EntryIsHalfway(standings, sc, 6, 1);
    EntryIsHalfway(standings, sc, 6, 2);
    EarningOnLine(4.0, sc, 6, 10.0, 2);
    EarningBounds(10.0, sc, 6, 10.0);
  }

  /** The curve through one standing list, end to end: two players on the list are paid in the
      order of their contributions, within the fixed range, and the first on the list is paid
      the top group's points. */
  lemma StandingOrderIsPaid(standings: seq<HonorStanding>, sc: HonorScores, p: nat, q: nat) returns (k: nat)
    requires Sorted(standings) && NonNegative(standings) && p <= q < |standings|
    requires IsScoresOf(sc, standings)
    ensures IsTopGroup(sc, k)
    ensures forall cp :: cp >= 0.0 ==> SegmentFrom(cp, sc, 0) > 0 && 0.0 <= Earning(cp, sc) <= sc.fy[k] <= 13000.0
    ensures Earning(standings[p].cp, sc) >= Earning(standings[q].cp, sc)
    ensures Earning(standings[0].cp, sc) == sc.fy[k]
  {
    k := TopGroupExists(sc, standings);
    ScoresHaveShape(sc, standings, k);
    var top := standings[0].cp;
    forall cp | cp >= 0.0
      ensures SegmentFrom(cp, sc, 0) > 0 && 0.0 <= Earning(cp, sc) <= sc.fy[k] <= 13000.0
    {
      EarningBounds(cp, sc, k, top);
    }
    EarningMonotone(standings[q].cp, standings[p].cp, sc, k, top);
    EarningBounds(top, sc, k, top);
  }
}
