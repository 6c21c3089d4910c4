/** The search for a free angle around an object (ObjectPosSelector). Two cursors walk the used
    positions on either side; between two of them small steps are tried. `acos` values are abstract:
    every used position carries the angle it keeps free, and the small step is a positive real. */
module AngleSelector {
  import opened Basics

  /** One entry of a used-position list: absolute angle, side it was added on, and GetAngle's value. */
  datatype UsedPos = UsedPos(angle: real, sign: real, free: real)

  /** The directions index the two-element arrays of the class: 0 is USED_POS_PLUS, 1 USED_POS_MINUS. */
  type Direction = d: nat | d < 2
  const PLUS: Direction := 0
  const MINUS: Direction := 1

  function Other(d: Direction): Direction { 1 - d }

  function SignOf(d: Direction): real { if d == PLUS then 1.0 else -1.0 }

  function Abs(x: real): real { if x < 0.0 then -x else x }

  /** All fields of the selector that the search reads or writes. */
  datatype State = State(
    lists: seq<seq<UsedPos>>, next: seq<nat>,
    smallAngle: seq<real>, smallOk: seq<bool>, smallNext: seq<Option<UsedPos>>)
  {
    predicate Shape() {
      && |lists| == |next| == |smallAngle| == |smallOk| == |smallNext| == 2
      && next[0] <= |lists[0]| && next[1] <= |lists[1]|
    }

    predicate AtEnd(d: Direction) requires Shape() { next[d] == |lists[d]| }

    /** The loop condition of NextAngle. */
    predicate Searching() requires Shape() {
      !AtEnd(PLUS) || !AtEnd(MINUS) || smallOk[PLUS] || smallOk[MINUS]
    }

    function NextUsed(d: Direction): Option<UsedPos> requires Shape() {
      var itr := if AtEnd(d) then next[d] else next[d] + 1;
      if itr < |lists[d]| then Some(lists[d][itr])
      else if lists[Other(d)] != [] then Some(lists[Other(d)][|lists[Other(d)]| - 1])
      else None
    }

    function Fail(d: Direction): State requires Shape() { this.(smallOk := smallOk[d := false]) }

    function Accept(d: Direction, angle: real): State requires Shape() { this.(smallAngle := smallAngle[d := angle]) }

    function Advance(d: Direction): State requires Shape() && !AtEnd(d) { this.(next := next[d := next[d] + 1]) }
  }

  /** The two lengths that never change during a search: half a turn and the small step. */
  datatype Geometry = Geometry(pi: real, anglestep: real) {
    predicate Valid() { pi > 0.0 && anglestep > 0.0 }
  }

  datatype Outcome = Outcome(state: State, ok: bool, angle: real)

  /** How far a used position lies from the front when one turns in the direction of the sign. */
  function Facing(g: Geometry, used: UsedPos, sign: real): real {
    if used.sign * sign < 0.0 then 2.0 * g.pi - used.angle else used.angle
  }

  function CheckAngle(g: Geometry, used: UsedPos, sign: real, angle: real): bool {
    Abs(angle) + used.free <= Facing(g, used, sign)
  }

  /** Just beside a used position, on the given side. */
  function AngleBeside(used: UsedPos, sign: real): real {
    used.angle * used.sign + used.free * sign
  }

  function NextAngleFor(g: Geometry, s: State, used: UsedPos, d: Direction, sign: real): Outcome
    requires s.Shape()
  {
    var angle := AngleBeside(used, sign);
    var nextNode := s.NextUsed(d);
    if nextNode.Some? && !CheckAngle(g, nextNode.value, sign, angle) then Outcome(s.Fail(d), false, angle)
    else Outcome(s.(smallOk := s.smallOk[d := true], smallAngle := s.smallAngle[d := angle],
                    smallNext := s.smallNext[d := nextNode]), true, angle)
  }

  function NextSmallStep(g: Geometry, s: State, d: Direction, sign: real): Outcome
    requires s.Shape()
  {
    var angle := s.smallAngle[d] + g.anglestep * sign;
    if Abs(angle) > g.pi then Outcome(s.Fail(d), false, angle)
    else if s.smallNext[d].Some? && Abs(angle) >= s.smallNext[d].value.angle then Outcome(s.Fail(d), false, angle)
    else if s.smallNext[d].Some? && !CheckAngle(g, s.smallNext[d].value, sign, angle)
    then Outcome(s.Fail(d), false, angle)
    else Outcome(s.Accept(d, angle), true, angle)
  }

  /** One try in the direction whose cursor still has a used position. */
  function TryDirection(g: Geometry, s: State, d: Direction): Outcome
    requires s.Shape() && !s.AtEnd(d)
  {
    var o := if s.smallOk[d] then NextSmallStep(g, s, d, SignOf(d))
             else NextAngleFor(g, s, s.lists[d][s.next[d]], d, SignOf(d));
    if o.ok then o else o.(state := o.state.Advance(d))
  }

  function NextPossible(g: Geometry, s: State, angle: real): Outcome
    requires s.Shape()
  {
    if !s.AtEnd(PLUS) && (s.AtEnd(MINUS) || s.lists[PLUS][s.next[PLUS]].angle <= s.lists[MINUS][s.next[MINUS]].angle)
    then TryDirection(g, s, PLUS)
    else if !s.AtEnd(MINUS) then TryDirection(g, s, MINUS)
    else if s.smallOk[PLUS] && (!s.smallOk[MINUS] || s.smallAngle[PLUS] <= s.smallAngle[MINUS])
    then NextSmallStep(g, s, PLUS, 1.0)
    else if s.smallOk[MINUS] then NextSmallStep(g, s, MINUS, -1.0)
    else Outcome(s, false, angle)
  }

  // ---------- the measure ----------

  function Remaining(s: State, d: Direction): nat requires s.Shape() { |s.lists[d]| - s.next[d] }

  /** Before a used position was tried its direction still owes one phase; with no position left
      only a small-step phase that is still open does. */
  function Phase(s: State, d: Direction): nat requires s.Shape() {
    if (Remaining(s, d) == 0) == s.smallOk[d] then 1 else 0
  }

  function StepsLeft(g: Geometry, s: State, d: Direction): nat requires s.Shape() && g.Valid() {
    var left := ((g.pi - s.smallAngle[d] * SignOf(d)) / g.anglestep).Floor + 1;
    if s.smallOk[d] && left > 0 then left else 0
  }

  function Phases(s: State, d: Direction): nat requires s.Shape() { 2 * Remaining(s, d) + Phase(s, d) }

  function TotalPhases(s: State): nat requires s.Shape() { Phases(s, PLUS) + Phases(s, MINUS) }

  function TotalSteps(g: Geometry, s: State): nat requires s.Shape() && g.Valid() {
    StepsLeft(g, s, PLUS) + StepsLeft(g, s, MINUS)
  }

  /** The lexicographic order on (phases, steps). */
  predicate Less(phases: nat, steps: nat, phases': nat, steps': nat) {
    phases < phases' || (phases == phases' && steps < steps')
  }

  lemma OneStepLess(g: Geometry, a: real)
    requires g.Valid()
    ensures ((g.pi - (a + g.anglestep)) / g.anglestep).Floor == ((g.pi - a) / g.anglestep).Floor - 1
    ensures a + g.anglestep <= g.pi ==> ((g.pi - a) / g.anglestep).Floor >= 1
  {
    var q, r := (g.pi - a) / g.anglestep, (g.pi - (a + g.anglestep)) / g.anglestep;
    assert q * g.anglestep == g.pi - a;
    assert (q - 1.0) * g.anglestep == g.pi - (a + g.anglestep);
    assert r * g.anglestep == g.pi - (a + g.anglestep);
    var d := r - (q - 1.0);
    assert d * g.anglestep == 0.0;
    assert d > 0.0 ==> d * g.anglestep > 0.0;
    assert d < 0.0 ==> d * g.anglestep < 0.0;
    if a + g.anglestep <= g.pi {
      assert r < 0.0 ==> r * g.anglestep < 0.0;
    }
  }

  /** A small step either closes its phase or uses up one of the steps left to half a turn. */
  lemma SmallStepProgress(g: Geometry, s: State, d: Direction)
    requires s.Shape() && g.Valid() && s.smallOk[d]
    ensures var o := NextSmallStep(g, s, d, SignOf(d));
            && o.state.Shape() && o.state.lists == s.lists && o.state.next == s.next
            && o.state.smallOk == (if o.ok then s.smallOk else s.smallOk[d := false])
            && (o.ok ==> StepsLeft(g, o.state, d) < StepsLeft(g, s, d))
            && StepsLeft(g, o.state, Other(d)) == StepsLeft(g, s, Other(d))
  {
    var o := NextSmallStep(g, s, d, SignOf(d));
    var a := s.smallAngle[d] * SignOf(d);
    OneStepLess(g, a);
    if o.ok {
      assert o.state.smallAngle[d] * SignOf(d) == a + g.anglestep;
    }
  }

  lemma TryProgress(g: Geometry, s: State, d: Direction)
    requires s.Shape() && g.Valid() && !s.AtEnd(d)
    ensures var o := TryDirection(g, s, d);
            && o.state.Shape() && o.state.lists == s.lists
            && Phases(o.state, Other(d)) == Phases(s, Other(d))
            && StepsLeft(g, o.state, Other(d)) == StepsLeft(g, s, Other(d))
            && Less(Phases(o.state, d), StepsLeft(g, o.state, d), Phases(s, d), StepsLeft(g, s, d))
            && (!o.ok ==> Remaining(o.state, d) < Remaining(s, d))
  {
    if s.smallOk[d] { SmallStepProgress(g, s, d); }
  }

  /** Every try while the search is on makes lexicographic progress. */
  lemma SearchProgress(g: Geometry, s: State, angle: real)
    requires s.Shape() && g.Valid() && s.Searching()
    ensures var o := NextPossible(g, s, angle);
            && o.state.Shape() && o.state.lists == s.lists
            && Less(TotalPhases(o.state), TotalSteps(g, o.state), TotalPhases(s), TotalSteps(g, s))
  {
    if !s.AtEnd(PLUS) { TryProgress(g, s, PLUS); }
    if !s.AtEnd(MINUS) { TryProgress(g, s, MINUS); }
    if s.smallOk[PLUS] { SmallStepProgress(g, s, PLUS); }
    if s.smallOk[MINUS] { SmallStepProgress(g, s, MINUS); }
  }

  /** NextAngle as a function: tries until one succeeds or the search is over. */
  function NextAngle(g: Geometry, s: State, angle: real): Outcome
    requires s.Shape() && g.Valid()
    decreases TotalPhases(s), TotalSteps(g, s)
  {
    if !s.Searching() then Outcome(s, false, angle)
    else
      SearchProgress(g, s, angle);
      var o := NextPossible(g, s, angle);
      if o.ok then o else NextAngle(g, o.state, o.angle)
  }

  function NextUsedAngle(g: Geometry, s: State, angle: real): Outcome
    requires s.Shape() && g.Valid()
    decreases TotalPhases(s), TotalSteps(g, s)
  {
    if s.AtEnd(PLUS) && s.AtEnd(MINUS) then Outcome(s, false, angle)
    else
      SearchProgress(g, s, angle);
      var o := NextPossible(g, s, angle);
      if !o.ok then o.(ok := true) else NextUsedAngle(g, o.state, o.angle)
  }

  // ---------- how many angles there are ----------

  /** What AddUsedPos leaves in the lists: the side's own sign, absolute angles, nonnegative free angles. */
  predicate Sided(s: State) requires s.Shape() {
    SidedList(s.lists[PLUS], PLUS) && SidedList(s.lists[MINUS], MINUS)
  }

  predicate SidedList(list: seq<UsedPos>, d: Direction) {
    forall i :: 0 <= i < |list| ==> Fits(list[i], d)
  }

  predicate Fits(u: UsedPos, d: Direction) {
    u.sign == SignOf(d) && u.angle >= 0.0 && u.free >= 0.0
  }

  /** No small-step walk starts more than half a turn behind the object. */
  predicate StartsAhead(g: Geometry, s: State) requires s.Shape() {
    forall d: Direction :: s.smallOk[d] ==> s.smallAngle[d] * SignOf(d) >= -g.pi
  }

  function MaxSteps(g: Geometry): nat requires g.Valid() {
    assert 2.0 * g.pi / g.anglestep > 0.0;
    (2.0 * g.pi / g.anglestep).Floor + 1
  }

  /** phases * (2 * most + 1) + steps */
  function Weigh(phases: nat, steps: nat, most: nat): nat {
    if phases == 0 then steps else 2 * most + 1 + Weigh(phases - 1, steps, most)
  }

  function Potential(g: Geometry, s: State): nat requires s.Shape() && g.Valid() {
    Weigh(TotalPhases(s), TotalSteps(g, s), MaxSteps(g))
  }

  lemma QuotientFloors(a: real, b: real, step: real)
    requires a <= b && step > 0.0
    ensures (a / step).Floor <= (b / step).Floor
  {
    var q, r := a / step, b / step;
    assert q * step == a && r * step == b;
    assert q > r ==> (q - r) * step > 0.0;
  }

  lemma StepsAreFew(g: Geometry, s: State, d: Direction)
    requires s.Shape() && g.Valid() && StartsAhead(g, s)
    ensures StepsLeft(g, s, d) <= MaxSteps(g)
  {
    if s.smallOk[d] {
      QuotientFloors(g.pi - s.smallAngle[d] * SignOf(d), 2.0 * g.pi, g.anglestep);
    }
  }

  lemma {:induction false} WeighOrder(p: nat, s: nat, p': nat, s': nat, most: nat)
    requires Less(p, s, p', s') && s <= 2 * most
    ensures Weigh(p, s, most) < Weigh(p', s', most)
    decreases p'
  {
    if p > 0 {
      WeighOrder(p - 1, s, p' - 1, s', most);
    } else if p' > 1 {
      WeighOrder(p, s, p' - 1, s', most);
    }
  }

  lemma {:induction false} WeighBound(p: nat, s: nat, p': nat, s': nat, most: nat)
    requires p <= p' && s <= s'
    ensures Weigh(p, s, most) <= Weigh(p', s', most)
    decreases p'
  {
    if p > 0 {
      WeighBound(p - 1, s, p' - 1, s', most);
    } else if p' > 0 {
      WeighBound(p, s, p' - 1, s', most);
    }
  }

  lemma TryStaysAhead(g: Geometry, s: State, d: Direction)
    requires s.Shape() && g.Valid() && Sided(s) && StartsAhead(g, s) && !s.AtEnd(d)
    ensures TryDirection(g, s, d).state.Shape() && StartsAhead(g, TryDirection(g, s, d).state)
  {
  }

  lemma SearchStaysAhead(g: Geometry, s: State, angle: real)
    requires s.Shape() && g.Valid() && Sided(s) && StartsAhead(g, s)
    ensures NextPossible(g, s, angle).state.Shape() && StartsAhead(g, NextPossible(g, s, angle).state)
  {
    if !s.AtEnd(PLUS) { TryStaysAhead(g, s, PLUS); }
    if !s.AtEnd(MINUS) { TryStaysAhead(g, s, MINUS); }
  }

  lemma TryPays(g: Geometry, s: State, angle: real)
    requires s.Shape() && g.Valid() && Sided(s) && StartsAhead(g, s) && s.Searching()
    ensures var o := NextPossible(g, s, angle);
            && o.state.Shape() && o.state.lists == s.lists && Sided(o.state) && StartsAhead(g, o.state)
            && Potential(g, o.state) < Potential(g, s)
  {
    SearchProgress(g, s, angle);
    SearchStaysAhead(g, s, angle);
    var o := NextPossible(g, s, angle);
    StepsAreFew(g, o.state, PLUS);
    StepsAreFew(g, o.state, MINUS);
    WeighOrder(TotalPhases(o.state), TotalSteps(g, o.state), TotalPhases(s), TotalSteps(g, s), MaxSteps(g));
  }

  lemma {:induction false} AngleCosts(g: Geometry, s: State, angle: real)
    requires s.Shape() && g.Valid() && Sided(s) && StartsAhead(g, s)
    ensures var o := NextAngle(g, s, angle);
            && o.state.Shape() && o.state.lists == s.lists && Sided(o.state) && StartsAhead(g, o.state)
            && (o.ok ==> Potential(g, o.state) < Potential(g, s))
            && (!o.ok ==> !o.state.Searching())
    decreases TotalPhases(s), TotalSteps(g, s)
  {
    if s.Searching() {
      SearchProgress(g, s, angle);
      TryPays(g, s, angle);
      var o := NextPossible(g, s, angle);
      if !o.ok { AngleCosts(g, o.state, o.angle); }
    }
  }

  /** The first n calls of NextAngle all deliver an angle. */
  predicate Delivers(g: Geometry, s: State, angle: real, n: nat)
    requires s.Shape() && g.Valid() && Sided(s) && StartsAhead(g, s)
    decreases n
  {
    n == 0 ||
    (AngleCosts(g, s, angle);
     var o := NextAngle(g, s, angle);
     o.ok && Delivers(g, o.state, o.angle, n - 1))
  }

  lemma PotentialBound(g: Geometry, s: State)
    requires s.Shape() && g.Valid() && StartsAhead(g, s)
    ensures Potential(g, s) <= Weigh(2 * (|s.lists[PLUS]| + |s.lists[MINUS]|) + 2, 2 * MaxSteps(g), MaxSteps(g))
  {
    StepsAreFew(g, s, PLUS);
    StepsAreFew(g, s, MINUS);
    WeighBound(TotalPhases(s), TotalSteps(g, s),
               2 * (|s.lists[PLUS]| + |s.lists[MINUS]|) + 2, 2 * MaxSteps(g), MaxSteps(g));
  }

  lemma DeliverOne(g: Geometry, s: State, angle: real, n: nat) returns (t: State, a: real, before: nat, after: nat)
    requires s.Shape() && g.Valid() && Sided(s) && StartsAhead(g, s)
    requires n > 0 && Delivers(g, s, angle, n)
    ensures t.Shape() && Sided(t) && StartsAhead(g, t) && Delivers(g, t, a, n - 1)
    ensures before == Potential(g, s) && after == Potential(g, t) && after < before
  {
    AngleCosts(g, s, angle);
    var o := NextAngle(g, s, angle);
    t, a := o.state, o.angle;
    before, after := Potential(g, s), Potential(g, t);
  }

  lemma {:induction false} EachAngleCosts(g: Geometry, s: State, angle: real, n: nat)
    requires s.Shape() && g.Valid() && Sided(s) && StartsAhead(g, s)
    requires Delivers(g, s, angle, n)
    ensures n <= Potential(g, s)
    decreases n
  {
    if n > 0 {
      var t, a, before, after := DeliverOne(g, s, angle, n);
      EachAngleCosts(g, t, a, n - 1);
      assert n - 1 <= after < before;
    }
  }

  /** However long a caller keeps asking, it gets at most this many angles. */
  lemma FinitelyManyAngles(g: Geometry, s: State, angle: real, n: nat)
    requires s.Shape() && g.Valid() && Sided(s) && StartsAhead(g, s)
    requires Delivers(g, s, angle, n)
    ensures n <= Potential(g, s)
    ensures Potential(g, s) <= Weigh(2 * (|s.lists[PLUS]| + |s.lists[MINUS]|) + 2, 2 * MaxSteps(g), MaxSteps(g))
  {
    EachAngleCosts(g, s, angle, n);
    PotentialBound(g, s);
  }

  // ---------- which angles are handed out ----------

  /** What InitializeAngle makes of a state: cursors and small steps start over, the watched
      positions stay what they were. */
  function Restarted(s: State): State requires s.Shape() {
    s.(next := [0, 0], smallAngle := [0.0, 0.0], smallOk := [true, true])
  }

  /** The used position a walk in direction d runs into. The walk that starts at the front has the
      position at the cursor before it; later walks start beside that one and run into the next. */
  function Ahead(s: State, d: Direction): Option<UsedPos> requires s.Shape() {
    if s.next[d] == 0 && s.lists[d] != [] then Some(s.lists[d][0]) else s.NextUsed(d)
  }

  predicate Clear(g: Geometry, s: State, d: Direction, angle: real) requires s.Shape() {
    Ahead(s, d).Some? ==> CheckAngle(g, Ahead(s, d).value, SignOf(d), angle)
  }

  /** What holds from a restart on: the walk at the front is open as long as its position was not
      passed, and later walks watch the position they run into. */
  predicate Underway(s: State) requires s.Shape() {
    forall d: Direction ::
      if s.next[d] == 0 then s.lists[d] == [] || s.smallOk[d]
      else s.smallOk[d] ==> s.smallNext[d] == s.NextUsed(d)
  }

  /** Every angle that is left of the walk at the front is clear. */
  predicate WalkClear(g: Geometry, s: State, d: Direction)
    requires s.Shape() && g.Valid()
    decreases StepsLeft(g, s, d)
  {
    s.smallOk[d] && s.next[d] == 0 ==>
      (SmallStepProgress(g, s, d);
       var o := NextSmallStep(g, s, d, SignOf(d));
       o.ok ==> Clear(g, o.state, d, o.angle) && WalkClear(g, o.state, d))
  }

  predicate SameSide(s: State, t: State, d: Direction) requires s.Shape() && t.Shape() {
    && s.lists == t.lists && s.next[d] == t.next[d] && s.smallAngle[d] == t.smallAngle[d]
    && s.smallOk[d] == t.smallOk[d] && s.smallNext[d] == t.smallNext[d]
  }

  lemma {:induction false} OtherSideStaysClear(g: Geometry, s: State, t: State, d: Direction)
    requires s.Shape() && t.Shape() && g.Valid() && SameSide(s, t, d)
    ensures WalkClear(g, s, d) == WalkClear(g, t, d)
    decreases StepsLeft(g, s, d)
  {
    if s.smallOk[d] && s.next[d] == 0 {
      SmallStepProgress(g, s, d);
      SmallStepProgress(g, t, d);
      var o, p := NextSmallStep(g, s, d, SignOf(d)), NextSmallStep(g, t, d, SignOf(d));
      if o.ok {
        OtherSideStaysClear(g, o.state, p.state, d);
      }
    }
  }

  /** The direction the next try goes in. */
  function Turn(s: State): Direction requires s.Shape() {
    if !s.AtEnd(PLUS) && (s.AtEnd(MINUS) || s.lists[PLUS][s.next[PLUS]].angle <= s.lists[MINUS][s.next[MINUS]].angle)
    then PLUS
    else if !s.AtEnd(MINUS) then MINUS
    else if s.smallOk[PLUS] && (!s.smallOk[MINUS] || s.smallAngle[PLUS] <= s.smallAngle[MINUS]) then PLUS
    else MINUS
  }

  /** The direction of the angle NextAngle delivers. */
  function Heading(g: Geometry, s: State, angle: real): Direction
    requires s.Shape() && g.Valid()
    decreases TotalPhases(s), TotalSteps(g, s)
  {
    if !s.Searching() then PLUS
    else
      SearchProgress(g, s, angle);
      var o := NextPossible(g, s, angle);
      if o.ok then Turn(s) else Heading(g, o.state, o.angle)
  }

  /** Whoever asks n times gets only angles that keep clear of the position ahead. */
  predicate ClearCalls(g: Geometry, s: State, angle: real, n: nat)
    requires s.Shape() && g.Valid()
    decreases n
  {
    n == 0 ||
    (NextAngleShape(g, s, angle);
     var o := NextAngle(g, s, angle);
     o.ok ==> Clear(g, o.state, Heading(g, s, angle), o.angle) && ClearCalls(g, o.state, o.angle, n - 1))
  }

  lemma {:induction false} NextAngleShape(g: Geometry, s: State, angle: real)
    requires s.Shape() && g.Valid()
    ensures NextAngle(g, s, angle).state.Shape()
    decreases TotalPhases(s), TotalSteps(g, s)
  {
    if s.Searching() {
      SearchProgress(g, s, angle);
      var o := NextPossible(g, s, angle);
      if !o.ok { NextAngleShape(g, o.state, o.angle); }
    }
  }

  /** A try changes the side it is on, and no other. */
  lemma TryStaysOnSide(g: Geometry, s: State, angle: real)
    requires s.Shape() && g.Valid()
    ensures NextPossible(g, s, angle).state.Shape() && SameSide(s, NextPossible(g, s, angle).state, Other(Turn(s)))
  {
  }

  /** What a try in direction d yields: at the front one step of the walk, and later only angles that are
      clear of the position ahead. */
  predicate OnSide(g: Geometry, s: State, d: Direction, o: Outcome) requires s.Shape() {
    && o.state.Shape() && Underway(o.state)
    && (s.next[d] > 0 ==> o.state.next[d] > 0 && (o.ok ==> Clear(g, o.state, d, o.angle)))
    && (s.next[d] == 0 ==>
          && s.smallOk[d] && o.ok == NextSmallStep(g, s, d, SignOf(d)).ok
          && (if o.ok then o == NextSmallStep(g, s, d, SignOf(d)) else !o.state.smallOk[d]))
  }

  lemma NextUsedStays(s: State, t: State, d: Direction)
    requires s.Shape() && t.Shape() && s.lists == t.lists && s.next[d] == t.next[d]
    ensures s.NextUsed(d) == t.NextUsed(d) && Ahead(s, d) == Ahead(t, d)
  {
  }

  lemma StepOnSide(g: Geometry, s: State, d: Direction)
    requires s.Shape() && Underway(s) && s.smallOk[d] && s.AtEnd(d)
    ensures OnSide(g, s, d, NextSmallStep(g, s, d, SignOf(d)))
  {
    var o, e := NextSmallStep(g, s, d, SignOf(d)), Other(d);
    NextUsedStays(s, o.state, d);
    NextUsedStays(s, o.state, e);
    assert o.state.smallOk[e] == s.smallOk[e] && o.state.smallNext[e] == s.smallNext[e];
  }

  lemma DirectionOnSide(g: Geometry, s: State, d: Direction)
    requires s.Shape() && Underway(s) && !s.AtEnd(d)
    ensures OnSide(g, s, d, TryDirection(g, s, d))
  {
    var o, e := TryDirection(g, s, d), Other(d);
    assert o.state.smallOk[e] == s.smallOk[e] && o.state.smallNext[e] == s.smallNext[e];
    NextUsedStays(s, o.state, e);
    if o.ok { NextUsedStays(s, o.state, d); }
  }

  lemma TryOnSide(g: Geometry, s: State, angle: real)
    requires s.Shape() && g.Valid() && s.Searching() && Underway(s)
    ensures OnSide(g, s, Turn(s), NextPossible(g, s, angle))
  {
    var d := Turn(s);
    if !s.AtEnd(d) {
      DirectionOnSide(g, s, d);
    } else {
      StepOnSide(g, s, d);
    }
  }

  lemma TryKeepsWalks(g: Geometry, s: State, angle: real, d: Direction)
    requires s.Shape() && g.Valid() && s.Searching() && Underway(s)
    ensures NextPossible(g, s, angle).state.Shape()
    ensures var o := NextPossible(g, s, angle);
            if d == Turn(s) && s.next[d] == 0 && o.ok
            then WalkClear(g, s, d) <==> Clear(g, o.state, d, o.angle) && WalkClear(g, o.state, d)
            else WalkClear(g, s, d) <==> WalkClear(g, o.state, d)
  {
    TryOnSide(g, s, angle);
    TryStaysOnSide(g, s, angle);
    var o := NextPossible(g, s, angle);
    if d != Turn(s) {
      OtherSideStaysClear(g, s, o.state, d);
    }
  }
  lemma {:induction false} ClearWalksDeliverClear(g: Geometry, s: State, angle: real, n: nat)
    requires s.Shape() && g.Valid() && Underway(s) && WalkClear(g, s, PLUS) && WalkClear(g, s, MINUS)
    ensures ClearCalls(g, s, angle, n)
    decreases TotalPhases(s), TotalSteps(g, s)
  {
    NextAngleShape(g, s, angle);
    if n > 0 && s.Searching() {
      SearchProgress(g, s, angle);
      TryOnSide(g, s, angle);
      TryKeepsWalks(g, s, angle, PLUS);
      TryKeepsWalks(g, s, angle, MINUS);
      var o := NextPossible(g, s, angle);
      ClearWalksDeliverClear(g, o.state, o.angle, if o.ok then n - 1 else n);
    }
  }

  /** Every angle of a walk at the front is delivered to whoever keeps asking. */
  lemma {:induction false} UnclearWalkShows(g: Geometry, s: State, angle: real, d: Direction) returns (n: nat)
    requires s.Shape() && g.Valid() && Underway(s) && !WalkClear(g, s, d)
    ensures !ClearCalls(g, s, angle, n)
    decreases TotalPhases(s), TotalSteps(g, s)
  {
    SearchProgress(g, s, angle);
    TryOnSide(g, s, angle);
    TryKeepsWalks(g, s, angle, d);
    var o := NextPossible(g, s, angle);
    if o.ok && !Clear(g, o.state, Turn(s), o.angle) {
      n := 1;
    } else {
      n := UnclearWalkShows(g, o.state, o.angle, d);
      n := if o.ok then n + 1 else n;
    }
  }

  lemma ClearCallsByWalks(g: Geometry, s: State, angle: real)
    requires s.Shape() && g.Valid() && Underway(s)
    ensures (forall n: nat :: ClearCalls(g, s, angle, n)) <==> WalkClear(g, s, PLUS) && WalkClear(g, s, MINUS)
  {
    if !WalkClear(g, s, PLUS) {
      var n := UnclearWalkShows(g, s, angle, PLUS);
    } else if !WalkClear(g, s, MINUS) {
      var n := UnclearWalkShows(g, s, angle, MINUS);
    } else {
      forall n: nat
        ensures ClearCalls(g, s, angle, n)
      {
        ClearWalksDeliverClear(g, s, angle, n);
      }
    }
  }

  // ---------- how far a walk at the front gets ----------

  /** k steps from the front. */
  function Steps(g: Geometry, k: int): real
    decreases k
  {
    if k <= 0 then 0.0 else Steps(g, k - 1) + g.anglestep
  }

  lemma {:induction false} StepsMultiply(g: Geometry, k: nat)
    ensures Steps(g, k) == k as real * g.anglestep
  {
    if k > 0 {
      StepsMultiply(g, k - 1);
      assert k as real * g.anglestep == (k - 1) as real * g.anglestep + g.anglestep;
    }
  }

  lemma {:induction false} MoreStepsAreLonger(g: Geometry, k: nat, n: nat)
    requires g.Valid() && k <= n
    ensures 0.0 <= Steps(g, k) <= Steps(g, n)
    decreases n
  {
    if k < n {
      MoreStepsAreLonger(g, k, n - 1);
    } else if k > 0 {
      MoreStepsAreLonger(g, k - 1, k - 1);
    }
  }

  /** The largest number of steps that come to at most x, and to less than x. */
  function StepsTo(g: Geometry, x: real): int requires g.Valid() { (x / g.anglestep).Floor }

  function StepsBelow(g: Geometry, x: real): int requires g.Valid() { -StepsTo(g, -x) - 1 }

  lemma MultipleFits(g: Geometry, x: real, k: int)
    requires g.Valid()
    ensures k as real * g.anglestep <= x <==> k <= StepsTo(g, x)
  {
    var q := x / g.anglestep;
    assert q * g.anglestep == x;
    if k <= q.Floor {
      assert (q - k as real) * g.anglestep >= 0.0;
    } else {
      assert k as real > q;
      assert (k as real - q) * g.anglestep > 0.0;
    }
  }

  lemma StepsToIsLargest(g: Geometry, x: real, k: nat)
    requires g.Valid()
    ensures Steps(g, k) <= x <==> k <= StepsTo(g, x)
  {
    StepsMultiply(g, k);
    MultipleFits(g, x, k);
  }

  lemma StepsBelowIsLargest(g: Geometry, x: real, k: nat)
    requires g.Valid()
    ensures Steps(g, k) < x <==> k <= StepsBelow(g, x)
  {
    StepsMultiply(g, k);
    MultipleFits(g, -x, 0 - k);
    assert (0 - k) as real * g.anglestep == -(k as real * g.anglestep);
  }

  /** The steps of a walk from the front that watches the given position, or none. */
  function LastStep(g: Geometry, watched: Option<UsedPos>, d: Direction): int requires g.Valid() {
    var half := StepsTo(g, g.pi);
    if watched.None? then half
    else
      var before := StepsBelow(g, watched.value.angle);
      var beside := StepsTo(g, Facing(g, watched.value, SignOf(d)) - watched.value.free);
      var last := if before < beside then before else beside;
      if half < last then half else last
  }

  /** The walk takes no step, or its last one keeps clear of the position ahead. */
  predicate LastStepClear(g: Geometry, s: State, d: Direction) requires s.Shape() && g.Valid() {
    var last := LastStep(g, s.smallNext[d], d);
    last < 1 || Ahead(s, d).None? ||
    Steps(g, last) + Ahead(s, d).value.free <= Facing(g, Ahead(s, d).value, SignOf(d))
  }

  function Signed(d: Direction, x: real): real { if d == PLUS then x else -x }

  /** After m steps from the front one more is taken exactly if m is not the last. */
  lemma OneMoreStep(g: Geometry, s: State, d: Direction, m: nat)
    requires s.Shape() && g.Valid() && s.smallAngle[d] == Signed(d, Steps(g, m))
    ensures var o := NextSmallStep(g, s, d, SignOf(d));
            && (o.ok <==> m < LastStep(g, s.smallNext[d], d))
            && o.angle == Signed(d, Steps(g, m + 1)) && Abs(o.angle) == Steps(g, m + 1)
  {
    MoreStepsAreLonger(g, m, m + 1);
    StepsToIsLargest(g, g.pi, m + 1);
    if s.smallNext[d].Some? {
      var u := s.smallNext[d].value;
      StepsBelowIsLargest(g, u.angle, m + 1);
      StepsToIsLargest(g, Facing(g, u, SignOf(d)) - u.free, m + 1);
    }
  }

  /** A walk with m steps behind it stays clear exactly if it is over or its last step is clear. */
  lemma {:induction false} WalkClearByLastStep(g: Geometry, s: State, d: Direction, m: nat)
    requires s.Shape() && g.Valid() && s.smallOk[d] && s.next[d] == 0
    requires s.smallAngle[d] == Signed(d, Steps(g, m))
    ensures WalkClear(g, s, d) <==> m >= LastStep(g, s.smallNext[d], d) || LastStepClear(g, s, d)
    decreases StepsLeft(g, s, d)
  {
    SmallStepProgress(g, s, d);
    OneMoreStep(g, s, d, m);
    var o := NextSmallStep(g, s, d, SignOf(d));
    if o.ok {
      WalkClearByLastStep(g, o.state, d, m + 1);
      NextUsedStays(s, o.state, d);
      MoreStepsAreLonger(g, m + 1, LastStep(g, s.smallNext[d], d));
    }
  }

  /** Repeated calls of NextAngle after InitializeAngle deliver only angles that keep clear of the used
      position ahead exactly if on either side the last step of the walk from the front does. Where
      nothing is watched this is the largest number of steps within half a turn. */
  lemma RestartedAnglesAreClear(g: Geometry, s: State, angle: real)
    requires s.Shape() && g.Valid()
    ensures (forall n: nat :: ClearCalls(g, Restarted(s), angle, n))
            <==> LastStepClear(g, Restarted(s), PLUS) && LastStepClear(g, Restarted(s), MINUS)
  {
    var r := Restarted(s);
    WalkClearByLastStep(g, r, PLUS, 0);
    WalkClearByLastStep(g, r, MINUS, 0);
    ClearCallsByWalks(g, r, angle);
  }

  /** The angle beside the only side's first position that opens the other side. */
  function FirstTry(g: Geometry, s: State, angle: real): Outcome requires s.Shape() {
    if s.lists[PLUS] == [] && s.lists[MINUS] != [] then NextAngleFor(g, s, s.lists[MINUS][0], PLUS, 1.0)
    else if s.lists[MINUS] == [] && s.lists[PLUS] != [] then NextAngleFor(g, s, s.lists[PLUS][0], MINUS, -1.0)
    else Outcome(s, false, angle)
  }

  /** The search as GetNearPoint runs it, whose used positions all have angles from 0 to a full turn and so
      are on one side: FirstAngle, InitializeAngle, NextAngle. The side of the positions is walked up to half
      a turn whatever stands there. The other side is safe if FirstAngle succeeded. */
  lemma NearPointSearchIsClear(g: Geometry, s: State, angle: real)
    requires s.Shape() && g.Valid() && s.smallNext == [None, None]
    requires s.lists[PLUS] != [] && s.lists[MINUS] == [] && s.next == [|s.lists[PLUS]|, 0]
    requires Sided(s)
    ensures var o, half := FirstTry(g, s, angle), StepsTo(g, g.pi);
            var first, last := s.lists[PLUS][0], s.lists[PLUS][|s.lists[PLUS]| - 1];
            o.state.Shape() &&
            ((forall n: nat :: ClearCalls(g, Restarted(o.state), o.angle, n))
             <==> half < 1 || (Steps(g, half) + first.free <= first.angle
                               && (o.ok || Steps(g, half) + last.free <= 2.0 * g.pi - last.angle)))
  {
    var o := FirstTry(g, s, angle);
    RestartedAnglesAreClear(g, o.state, o.angle);
    var r, last := Restarted(o.state), s.lists[PLUS][|s.lists[PLUS]| - 1];
    assert Ahead(r, MINUS) == Some(last) && Ahead(r, PLUS) == Some(s.lists[PLUS][0]);
    if o.ok {
      var k := LastStep(g, Some(last), MINUS);
      if k >= 1 { StepsToIsLargest(g, Facing(g, last, -1.0) - last.free, k); }
    }
  }

  /** One used position at 1.0: the second angle of a restarted search lies on top of it, whatever the
      other side watches. */
  lemma FirstWalkMayHitAUsedPosition(watched: Option<UsedPos>)
    ensures var g := Geometry(3.0, 0.5);
            var used := UsedPos(1.0, 1.0, 0.25);
            var s := State([[used], []], [0, 0], [0.0, 0.0], [true, true], [None, watched]);
            var first := NextAngle(g, s, 0.0);
            first.ok && NextAngle(g, first.state, first.angle) ==
              Outcome(s.(smallAngle := [1.0, 0.0]), true, used.angle)
  {
    var g := Geometry(3.0, 0.5);
    var s := State([[UsedPos(1.0, 1.0, 0.25)], []], [0, 0], [0.0, 0.0], [true, true], [None, watched]);
    assert NextPossible(g, s, 0.0) == Outcome(s.(smallAngle := [0.5, 0.0]), true, 0.5);
    var t := s.(smallAngle := [0.5, 0.0]);
    assert NextPossible(g, t, 0.5) == Outcome(s.(smallAngle := [1.0, 0.0]), true, 1.0);
  }

  // ---------- the selector object ----------

  /** Position of a new entry in a multimap: behind all entries with the same or a smaller angle. */
  function Insert(list: seq<UsedPos>, u: UsedPos): seq<UsedPos> {
    if list == [] || u.angle < list[0].angle then [u] + list else [list[0]] + Insert(list[1..], u)
  }

  predicate Ordered(list: seq<UsedPos>) {
    forall i, j :: 0 <= i < j < |list| ==> list[i].angle <= list[j].angle
  }

  lemma {:induction false} InsertKeeps(list: seq<UsedPos>, u: UsedPos)
    ensures |Insert(list, u)| == |list| + 1
    ensures forall x :: x in Insert(list, u) <==> x in list || x == u
    ensures Ordered(list) ==> Ordered(Insert(list, u))
  {
    if list != [] && list[0].angle <= u.angle {
      InsertKeeps(list[1..], u);
      assert list == [list[0]] + list[1..];
      var rest := Insert(list[1..], u);
      if Ordered(list) {
        forall i | 0 <= i < |rest|
          ensures list[0].angle <= rest[i].angle
        {
          assert rest[i] in rest;
        }
      }
    }
  }

  lemma InsertStaysSided(list: seq<UsedPos>, d: Direction, u: UsedPos)
    requires SidedList(list, d) && Ordered(list) && Fits(u, d)
    ensures SidedList(Insert(list, u), d) && Ordered(Insert(list, u)) && |Insert(list, u)| == |list| + 1
  {
    var longer := Insert(list, u);
    InsertKeeps(list, u);
    forall i | 0 <= i < |longer|
      ensures Fits(longer[i], d)
    {
      assert longer[i] in longer;
    }
  }

  /** Where Insert puts an entry with that angle. */
  function Place(list: seq<UsedPos>, angle: real): (i: nat)
    ensures i <= |list|
  {
    if list == [] || angle < list[0].angle then 0 else 1 + Place(list[1..], angle)
  }

  /** The index of the entry, or the end, that a cursor pointed at before the insertion. */
  function Shifted(cursor: nat, list: seq<UsedPos>, angle: real): nat {
    if Place(list, angle) <= cursor then cursor + 1 else cursor
  }

  /** A cursor keeps its entry, and one at the end stays at the end. */
  lemma {:induction false} CursorKeepsEntry(list: seq<UsedPos>, u: UsedPos, cursor: nat)
    requires cursor <= |list|
    ensures var now := Shifted(cursor, list, u.angle);
            && |Insert(list, u)| == |list| + 1
            && (cursor == |list| ==> now == |list| + 1)
            && (cursor < |list| ==> now <= |list| && Insert(list, u)[now] == list[cursor])
  {
    if list != [] && list[0].angle <= u.angle {
      CursorKeepsEntry(list[1..], u, if cursor == 0 then 0 else cursor - 1);
    }
  }

  function Added(s: State, d: Direction, u: UsedPos): State requires s.Shape() {
    s.(lists := s.lists[d := Insert(s.lists[d], u)], next := s.next[d := Shifted(s.next[d], s.lists[d], u.angle)])
  }

  predicate Usable(g: Geometry, s: State) {
    g.Valid() && s.Shape() && Sided(s) && StartsAhead(g, s) && Ordered(s.lists[PLUS]) && Ordered(s.lists[MINUS])
  }

  lemma AddedStays(g: Geometry, s: State, d: Direction, u: UsedPos)
    requires Usable(g, s) && Fits(u, d)
    ensures Usable(g, Added(s, d, u))
  {
    InsertStaysSided(s.lists[d], d, u);
    CursorKeepsEntry(s.lists[d], u, s.next[d]);
    assert d == PLUS || d == MINUS;
  }

  class ObjectPosSelector {
    const geometry: Geometry
    var lists: seq<seq<UsedPos>>
    var next: seq<nat>
    var smallAngle: seq<real>
    var smallOk: seq<bool>
    var smallNext: seq<Option<UsedPos>>

    ghost function Fields(): State
      reads this
    {
      State(lists, next, smallAngle, smallOk, smallNext)
    }

    ghost predicate Valid()
      reads this
    {
      Usable(geometry, Fields())
    }

    constructor (g: Geometry)
      requires g.Valid()
      ensures Valid() && geometry == g && lists == [[], []]
      ensures !Fields().Searching()
    {
      geometry := g;
      lists, next, smallAngle, smallOk, smallNext := [[], []], [0, 0], [0.0, 0.0], [false, false], [None, None];
    }

    /** The caller passes angles from 0 to a full turn, and the free angle acos yields. A cursor goes on
        pointing at its entry, or at the end. */
    method AddUsedPos(angle: real, free: real)
      requires Valid() && free >= 0.0
      modifies this`lists, this`next
      ensures Valid()
      ensures Fields() == Added(old(Fields()), if angle >= 0.0 then PLUS else MINUS,
                                UsedPos(Abs(angle), if angle >= 0.0 then 1.0 else -1.0, free))
    {
      if angle >= 0.0 {
        AddedStays(geometry, Fields(), PLUS, UsedPos(angle, 1.0, free));
        next := next[PLUS := Shifted(next[PLUS], lists[PLUS], angle)];
        lists := lists[PLUS := Insert(lists[PLUS], UsedPos(angle, 1.0, free))];
      } else {
        AddedStays(geometry, Fields(), MINUS, UsedPos(-angle, -1.0, free));
        next := next[MINUS := Shifted(next[MINUS], lists[MINUS], -angle)];
        lists := lists[MINUS := Insert(lists[MINUS], UsedPos(-angle, -1.0, free))];
      }
    }

    method InitializeAngle()
      requires Valid()
      modifies this`next, this`smallAngle, this`smallOk
      ensures Valid() && Fields() == Restarted(old(Fields()))
    {
      next, smallAngle, smallOk := [0, 0], [0.0, 0.0], [true, true];
    }

    method NextAngleForPos(used: UsedPos, sign: real, d: Direction) returns (ok: bool, angle: real)
      requires Fields().Shape()
      modifies this`smallOk, this`smallAngle, this`smallNext
      ensures Outcome(Fields(), ok, angle) == NextAngleFor(geometry, old(Fields()), used, d, sign)
    {
      angle := AngleBeside(used, sign);
      var nextNode := NextUsedPos(d);
      if nextNode.Some? && !CheckAngle(geometry, nextNode.value, sign, angle) {
        smallOk := smallOk[d := false];
        return false, angle;
      }
      smallOk := smallOk[d := true];
      smallAngle := smallAngle[d := angle];
      smallNext := smallNext[d := nextNode];
      ok := true;
    }

    method NextUsedPos(d: Direction) returns (r: Option<UsedPos>)
      requires Fields().Shape()
      ensures r == Fields().NextUsed(d)
    {
      var itr := next[d];
      if itr != |lists[d]| {
        itr := itr + 1;
      }
      if itr == |lists[d]| {
        var other := lists[Other(d)];
        r := if other != [] then Some(other[|other| - 1]) else None;
      } else {
        r := Some(lists[d][itr]);
      }
    }

    method NextSmallStepAngle(sign: real, d: Direction) returns (ok: bool, angle: real)
      requires Fields().Shape()
      modifies this`smallOk, this`smallAngle
      ensures Outcome(Fields(), ok, angle) == NextSmallStep(geometry, old(Fields()), d, sign)
    {
      angle := smallAngle[d] + geometry.anglestep * sign;
      if Abs(angle) > geometry.pi {
        smallOk := smallOk[d := false];
        return false, angle;
      }
      if smallNext[d].Some? {
        if Abs(angle) >= smallNext[d].value.angle {
          smallOk := smallOk[d := false];
          return false, angle;
        }
        if !CheckAngle(geometry, smallNext[d].value, sign, angle) {
          smallOk := smallOk[d := false];
          return false, angle;
        }
      }
      smallAngle := smallAngle[d := angle];
      ok := true;
    }

    /** With used positions on one side only, the first of them opens the other side. */
    method FirstAngle(angle0: real) returns (ok: bool, angle: real)
      requires Valid()
      modifies this`smallOk, this`smallAngle, this`smallNext
      ensures Valid()
      ensures Outcome(Fields(), ok, angle) == FirstTry(geometry, old(Fields()), angle0)
    {
      if lists[PLUS] == [] && lists[MINUS] != [] {
        ok, angle := NextAngleForPos(lists[MINUS][0], 1.0, PLUS);
      } else if lists[MINUS] == [] && lists[PLUS] != [] {
        ok, angle := NextAngleForPos(lists[PLUS][0], -1.0, MINUS);
      } else {
        ok, angle := false, angle0;
      }
    }

    method NextPosibleAngle(angle0: real) returns (ok: bool, angle: real)
      requires Fields().Shape()
      modifies this`next, this`smallOk, this`smallAngle, this`smallNext
      ensures Outcome(Fields(), ok, angle) == NextPossible(geometry, old(Fields()), angle0)
    {
      if next[PLUS] != |lists[PLUS]| &&
         (next[MINUS] == |lists[MINUS]| || lists[PLUS][next[PLUS]].angle <= lists[MINUS][next[MINUS]].angle)
      {
        if smallOk[PLUS] {
          ok, angle := NextSmallStepAngle(1.0, PLUS);
        } else {
          ok, angle := NextAngleForPos(lists[PLUS][next[PLUS]], 1.0, PLUS);
        }
        if !ok {
          next := next[PLUS := next[PLUS] + 1];
        }
      } else if next[MINUS] != |lists[MINUS]| {
        if smallOk[MINUS] {
          ok, angle := NextSmallStepAngle(-1.0, MINUS);
        } else {
          ok, angle := NextAngleForPos(lists[MINUS][next[MINUS]], -1.0, MINUS);
        }
        if !ok {
          next := next[MINUS := next[MINUS] + 1];
        }
      } else if smallOk[PLUS] && (!smallOk[MINUS] || smallAngle[PLUS] <= smallAngle[MINUS]) {
        ok, angle := NextSmallStepAngle(1.0, PLUS);
      } else if smallOk[MINUS] {
        ok, angle := NextSmallStepAngle(-1.0, MINUS);
      } else {
        ok, angle := false, angle0;
      }
    }

    /** The loop ends for every selector; the measure is lexicographic. */
    method NextAngleLoop(angle0: real) returns (ok: bool, angle: real)
      requires Valid()
      modifies this`next, this`smallOk, this`smallAngle, this`smallNext
      ensures Valid()
      ensures Outcome(Fields(), ok, angle) == NextAngle(geometry, old(Fields()), angle0)
    {
      angle := angle0;
      while next[PLUS] != |lists[PLUS]| || next[MINUS] != |lists[MINUS]| || smallOk[PLUS] || smallOk[MINUS]
        invariant Valid()
        invariant NextAngle(geometry, Fields(), angle) == NextAngle(geometry, old(Fields()), angle0)
        decreases TotalPhases(Fields()), TotalSteps(geometry, Fields())
      {
        TryPays(geometry, Fields(), angle);
        SearchProgress(geometry, Fields(), angle);
        ok, angle := NextPosibleAngle(angle);
        if ok {
          return true, angle;
        }
      }
      ok := false;
    }

    method NextUsedAngleLoop(angle0: real) returns (ok: bool, angle: real)
      requires Valid()
      modifies this`next, this`smallOk, this`smallAngle, this`smallNext
      ensures Valid()
      ensures Outcome(Fields(), ok, angle) == NextUsedAngle(geometry, old(Fields()), angle0)
    {
      angle := angle0;
      while next[PLUS] != |lists[PLUS]| || next[MINUS] != |lists[MINUS]|
        invariant Valid()
        invariant NextUsedAngle(geometry, Fields(), angle) == NextUsedAngle(geometry, old(Fields()), angle0)
        decreases TotalPhases(Fields()), TotalSteps(geometry, Fields())
      {
        TryPays(geometry, Fields(), angle);
        SearchProgress(geometry, Fields(), angle);
        ok, angle := NextPosibleAngle(angle);
        if !ok {
          return true, angle;
        }
      }
      ok := false;
    }
  }
}
