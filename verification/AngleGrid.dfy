/** Where the angles of the search lie: on whole small steps from the front, or from just beside the used position
    at the cursor. */
module AngleGrid {
  import opened Basics
  import opened AngleSelector

  /** The way from the front to a used position, turning in the direction. */
  function WayTo(u: UsedPos, d: Direction): real { Signed(d, u.angle * u.sign) }

  /** Where the walk at the cursor starts: at the front, or as far beside the position at the cursor as that one
      keeps free. */
  function Start(s: State, d: Direction): real
    requires s.Shape() && (s.next[d] == 0 || !s.AtEnd(d))
  {
    if s.next[d] == 0 then 0.0 else WayTo(s.lists[d][s.next[d]], d) + s.lists[d][s.next[d]].free
  }

  /** The angle is k small steps from the start of the walk at the cursor. */
  ghost predicate OnGrid(g: Geometry, s: State, d: Direction, angle: real)
    requires s.Shape()
  {
    (s.next[d] == 0 || !s.AtEnd(d)) && exists k: nat :: Signed(d, angle) == Start(s, d) + Steps(g, k)
  }

  /** Every open walk is on its grid. */
  ghost predicate Gridded(g: Geometry, s: State)
    requires s.Shape()
  {
    forall d: Direction :: s.smallOk[d] ==> OnGrid(g, s, d, s.smallAngle[d])
  }

  lemma SignedTimes(d: Direction, x: real)
    ensures x * SignOf(d) == Signed(d, x) && Signed(d, Signed(d, x)) == x
  {
  }

  lemma StepOnGrid(g: Geometry, s: State, d: Direction)
    requires s.Shape() && g.Valid() && s.smallOk[d] && OnGrid(g, s, d, s.smallAngle[d])
    ensures var o := NextSmallStep(g, s, d, SignOf(d));
            && o.state.Shape() && o.state.next == s.next && o.state.lists == s.lists
            && (o.ok ==> OnGrid(g, o.state, d, o.angle) && o.state.smallAngle[d] == o.angle)
  {
    var o := NextSmallStep(g, s, d, SignOf(d));
    var k: nat :| Signed(d, s.smallAngle[d]) == Start(s, d) + Steps(g, k);
    assert Steps(g, k + 1) == Steps(g, k) + g.anglestep;
    if o.ok {
      assert Signed(d, o.angle) == Signed(d, s.smallAngle[d]) + g.anglestep;
      assert Start(o.state, d) == Start(s, d);
    }
  }

  lemma BesideOnGrid(g: Geometry, s: State, d: Direction)
    requires s.Shape() && !s.AtEnd(d) && s.next[d] > 0
    ensures var o := NextAngleFor(g, s, s.lists[d][s.next[d]], d, SignOf(d));
            && o.state.Shape() && o.state.next == s.next && o.state.lists == s.lists
            && (o.ok ==> OnGrid(g, o.state, d, o.angle) && o.state.smallAngle[d] == o.angle)
  {
    var u := s.lists[d][s.next[d]];
    var o := NextAngleFor(g, s, u, d, SignOf(d));
    SignedTimes(d, u.free);
    assert Signed(d, AngleBeside(u, SignOf(d))) == WayTo(u, d) + u.free;
    assert Steps(g, 0) == 0.0;
    assert o.ok ==> Signed(d, o.angle) == Start(o.state, d) + Steps(g, 0);
  }

  /** A try in direction d leaves the other side alone, and its own open walk on its grid. */
  predicate Tried(s: State, d: Direction, o: Outcome)
    requires s.Shape() && o.state.Shape()
  {
    && (o.ok ==> o.state.smallAngle[d] == o.angle) && (!o.ok ==> !o.state.smallOk[d])
    && SameSide(s, o.state, Other(d))
  }

  lemma TryOnGrid(g: Geometry, s: State, angle: real)
    requires s.Shape() && g.Valid() && s.Searching() && Underway(s) && Gridded(g, s)
    ensures var o, d := NextPossible(g, s, angle), Turn(s);
            o.state.Shape() && Tried(s, d, o) && (o.ok ==> OnGrid(g, o.state, d, o.angle))
  {
    var d := Turn(s);
    if s.smallOk[d] {
      StepOnGrid(g, s, d);
    } else if !s.AtEnd(d) {
      BesideOnGrid(g, s, d);
    }
    TryStaysOnSide(g, s, angle);
  }

  lemma GridKept(g: Geometry, s: State, angle: real)
    requires s.Shape() && g.Valid() && s.Searching() && Underway(s) && Gridded(g, s)
    ensures NextPossible(g, s, angle).state.Shape() && Gridded(g, NextPossible(g, s, angle).state)
  {
    var o, d := NextPossible(g, s, angle), Turn(s);
    TryOnGrid(g, s, angle);
    forall e: Direction | o.state.smallOk[e]
      ensures OnGrid(g, o.state, e, o.state.smallAngle[e])
    {
      if e != d {
        assert e == Other(d) && OnGrid(g, s, e, s.smallAngle[e]);
        assert Start(o.state, e) == Start(s, e);
      }
    }
  }

  /** Whoever asks n times gets only angles on these grids. */
  ghost predicate GridCalls(g: Geometry, s: State, angle: real, n: nat)
    requires s.Shape() && g.Valid()
    decreases n
  {
    n == 0 ||
    (NextAngleShape(g, s, angle);
     var o := NextAngle(g, s, angle);
     o.ok ==> OnGrid(g, o.state, Heading(g, s, angle), o.angle) && GridCalls(g, o.state, o.angle, n - 1))
  }

  lemma {:induction false} CallsOnGrid(g: Geometry, s: State, angle: real, n: nat)
    requires s.Shape() && g.Valid() && Underway(s) && Gridded(g, s)
    ensures GridCalls(g, s, angle, n)
    decreases TotalPhases(s), TotalSteps(g, s)
  {
    NextAngleShape(g, s, angle);
    if n > 0 && s.Searching() {
      SearchProgress(g, s, angle);
      TryOnGrid(g, s, angle);
      GridKept(g, s, angle);
      TryOnSide(g, s, angle);
      var o := NextPossible(g, s, angle);
      CallsOnGrid(g, o.state, o.angle, if o.ok then n - 1 else n);
    }
  }

  /** However often NextAngle is called after InitializeAngle, each of its angles is a whole number of small steps away
      from the front, or from the point beside the used position at the cursor that is exactly as far from it as it
      keeps free; so it keeps clear of the position behind. */
  lemma RestartedAnglesOnGrid(g: Geometry, s: State, angle: real, n: nat)
    requires s.Shape() && g.Valid()
    ensures GridCalls(g, Restarted(s), angle, n)
  {
    var r := Restarted(s);
    forall d: Direction
      ensures OnGrid(g, r, d, r.smallAngle[d])
    {
      assert Steps(g, 0) == 0.0;
      assert Signed(d, 0.0) == Start(r, d) + Steps(g, 0);
    }
    CallsOnGrid(g, r, angle, n);
  }

  lemma GridIsClearBehind(g: Geometry, s: State, d: Direction, angle: real)
    requires s.Shape() && g.Valid() && OnGrid(g, s, d, angle) && s.next[d] > 0
    ensures !s.AtEnd(d) && Signed(d, angle) - WayTo(s.lists[d][s.next[d]], d) >= s.lists[d][s.next[d]].free
  {
    var k: nat :| Signed(d, angle) == Start(s, d) + Steps(g, k);
    MoreStepsAreLonger(g, 0, k);
  }

  // ---------- the position ahead ----------

  /** The position watched is the next one on the own side; behind the last one it is the first that is met on the
      other side, coming from behind. */
  lemma NextUsedIsNearest(g: Geometry, s: State, d: Direction)
    requires s.Shape() && Sided(s) && Ordered(s.lists[d]) && Ordered(s.lists[Other(d)])
    ensures var own, others := s.lists[d][if s.AtEnd(d) then s.next[d] else s.next[d] + 1..], s.lists[Other(d)];
            && (s.NextUsed(d).None? <==> own == [] && others == [])
            && (s.NextUsed(d).Some? ==>
                  var u := s.NextUsed(d).value;
                  && u in (if own != [] then own else others)
                  && forall x <- if own != [] then own else others ::
                       Facing(g, u, SignOf(d)) <= Facing(g, x, SignOf(d)))
  {
  }

  // ---------- the first angle, and the used ones ----------

  /** With used positions on one side only, FirstAngle tries the other side: just beside the first of them, as far
      from it as it keeps free. Otherwise it fails and changes nothing. */
  lemma FirstAngleIsBeside(g: Geometry, s: State, angle: real, d: Direction)
    requires s.Shape() && s.lists[d] == []
    ensures s.lists[Other(d)] != [] ==>
              var o, first := FirstTry(g, s, angle), s.lists[Other(d)][0];
              && Signed(d, o.angle) == WayTo(first, d) + first.free
              && (o.ok <==> s.NextUsed(d).None? || CheckAngle(g, s.NextUsed(d).value, SignOf(d), o.angle))
    ensures s.lists[Other(d)] == [] ==> FirstTry(g, s, angle) == Outcome(s, false, angle)
  {
  }

  lemma NothingToOpen(g: Geometry, s: State, angle: real)
    requires s.Shape() && s.lists[PLUS] != [] && s.lists[MINUS] != []
    ensures FirstTry(g, s, angle) == Outcome(s, false, angle)
  {
  }

  /** What n successful tries lead to. */
  ghost predicate Succeeded(g: Geometry, s: State, angle: real, n: nat, t: State, at: real)
    requires s.Shape() && g.Valid()
    decreases n
  {
    if n == 0 then t == s && at == angle
    else
      !(s.AtEnd(PLUS) && s.AtEnd(MINUS)) &&
      (SearchProgress(g, s, angle);
       var o := NextPossible(g, s, angle);
       o.ok && Succeeded(g, o.state, o.angle, n - 1, t, at))
  }

  /** NextUsedAngle delivers the angle of the first try that fails, and nothing if none does before both cursors are at
      the end. */
  lemma {:induction false} UsedAngleIsFirstMiss(g: Geometry, s: State, angle: real)
    returns (n: nat, t: State, at: real)
    requires s.Shape() && g.Valid()
    ensures t.Shape() && Succeeded(g, s, angle, n, t, at)
    ensures var o := NextUsedAngle(g, s, angle);
            if o.ok then
              && !(t.AtEnd(PLUS) && t.AtEnd(MINUS)) && !NextPossible(g, t, at).ok
              && o.state == NextPossible(g, t, at).state && o.angle == NextPossible(g, t, at).angle
            else t.AtEnd(PLUS) && t.AtEnd(MINUS) && o == Outcome(t, false, at)
    decreases TotalPhases(s), TotalSteps(g, s)
  {
    n, t, at := 0, s, angle;
    if !(s.AtEnd(PLUS) && s.AtEnd(MINUS)) {
      SearchProgress(g, s, angle);
      var o := NextPossible(g, s, angle);
      if o.ok {
        n, t, at := UsedAngleIsFirstMiss(g, o.state, o.angle);
        n := n + 1;
      }
    }
  }
}
