/** Cameras and view points: src/game/Camera.cpp, src/game/Camera.h. A player's camera looks from some world
    object; the object's view point lists the cameras that look from it, and passes events on to them. */
module Cameras {
  import opened Basics

  // ---------- std::list of cameras ----------

  /** list::remove */
  function Without<T(==)>(s: seq<T>, x: T): seq<T> {
    if s == [] then [] else if s[0] == x then Without(s[1..], x) else [s[0]] + Without(s[1..], x)
  }

  function Minus<T(==)>(s: seq<T>, xs: set<T>): seq<T> {
    if s == [] then [] else if s[0] in xs then Minus(s[1..], xs) else [s[0]] + Minus(s[1..], xs)
  }

  lemma {:induction false} WithoutAbsent<T>(s: seq<T>, x: T)
    requires x !in s
    ensures Without(s, x) == s
  {
    if s != [] {
      WithoutAbsent(s[1..], x);
    }
  }

  lemma {:induction false} WithoutDistinct<T>(a: seq<T>, x: T, b: seq<T>)
    requires x !in a && x !in b
    ensures Without(a + [x] + b, x) == a + b
  {
    if a == [] {
      assert a + [x] + b == [x] + b;
      assert ([x] + b)[1..] == b;
      WithoutAbsent(b, x);
    } else {
      WithoutDistinct(a[1..], x, b);
      assert (a + [x] + b)[1..] == a[1..] + [x] + b;
      assert [a[0]] + (a[1..] + b) == a + b;
    }
  }

  lemma HeadIsAlone<T>(s: seq<T>)
    requires s != [] && Distinct(s)
    ensures s[0] !in s[1..] && Distinct(s[1..])
  {
  }

  lemma PrependDistinct<T>(x: T, s: seq<T>)
    ensures Distinct(s) && x !in s ==> Distinct([x] + s)
  {
  }

  lemma {:induction false} WithoutMember<T>(s: seq<T>, x: T, y: T)
    ensures y in Without(s, x) <==> y in s && y != x
  {
    if s != [] {
      WithoutMember(s[1..], x, y);
    }
  }

  lemma {:induction false} WithoutDistinctToo<T>(s: seq<T>, x: T)
    requires Distinct(s)
    ensures Distinct(Without(s, x))
  {
    if s != [] {
      HeadIsAlone(s);
      WithoutDistinctToo(s[1..], x);
      WithoutMember(s[1..], x, s[0]);
      PrependDistinct(s[0], Without(s[1..], x));
    }
  }

  lemma AppendDistinct<T>(s: seq<T>, x: T)
    ensures Distinct(s) && x !in s ==> Distinct(s + [x])
  {
  }

  lemma LastOfPrefix<T>(s: seq<T>, n: nat)
    requires Distinct(s) && 0 < n <= |s|
    ensures s[n - 1] !in s[..n - 1]
    ensures s[..n] == s[..n - 1] + [s[n - 1]] && s[n - 1..] == [s[n - 1]] + s[n..]
  {
  }

  lemma {:induction false} MinusSplits<T>(a: seq<T>, b: seq<T>, xs: set<T>)
    ensures Minus(a + b, xs) == Minus(a, xs) + Minus(b, xs)
  {
    if a == [] {
      assert a + b == b;
    } else {
      MinusSplits(a[1..], b, xs);
      assert (a + b)[1..] == a[1..] + b;
      assert (a + b)[0] == a[0];
      if a[0] !in xs {
        Associate([a[0]], Minus(a[1..], xs), Minus(b, xs));
      }
    }
  }

  lemma {:induction false} MinusMember<T>(s: seq<T>, xs: set<T>, y: T)
    ensures y in Minus(s, xs) <==> y in s && y !in xs
  {
    if s != [] {
      MinusMember(s[1..], xs, y);
    }
  }

  // ---------- objects ----------

  /** A world object with its view point; a player also has the objects it is in map with and those it sees. */
  class WorldObject {
    /** Units and dynamic objects: the only ones a client can look from. */
    const viewable: bool
    var cameras: seq<Camera>
    var inMapWith: set<WorldObject>
    var visible: set<WorldObject>
    /** PLAYER_FARSIGHT; null stands for the empty guid. */
    var farsight: WorldObject?

    constructor (viewable: bool)
      ensures this.viewable == viewable && cameras == [] && farsight == null
    {
      this.viewable := viewable;
      cameras, inMapWith, visible, farsight := [], {}, {}, null;
    }

    method Attach(c: Camera)
      modifies this`cameras
      ensures cameras == old(cameras) + [c]
    {
      cameras := cameras + [c];
    }

    method Detach(c: Camera)
      modifies this`cameras
      ensures cameras == Without(old(cameras), c)
    {
      cameras := Without(cameras, c);
    }
  }

  class Camera {
    const owner: WorldObject
    var source: WorldObject

    constructor (pl: WorldObject)
      modifies pl`cameras
      ensures owner == pl && source == pl && pl.cameras == old(pl.cameras) + [this]
    {
      owner := pl;
      source := pl;
      new;
      source.Attach(this);
    }

    /** The destructor, called after the view was reset. */
    method Destroy()
      requires source == owner
      modifies source`cameras
      ensures source.cameras == Without(old(source.cameras), this)
    {
      source.Detach(this);
    }
  }

  // ---------- who looks from where ----------

  /** All lists of cameras and all sources at one moment. */
  datatype World = World(lists: map<WorldObject, seq<Camera>>, sources: map<Camera, WorldObject>)

  ghost function Snapshot(objects: set<WorldObject>, cams: set<Camera>): World
    reads objects, cams
  {
    World(map o | o in objects :: o.cameras, map c | c in cams :: c.source)
  }

  /** Every camera is in the list of its source, once, and in no other; players are among the objects
      that can be looked from. */
  ghost predicate Attached(w: World) {
    && (forall c :: c in w.sources ==> c.owner in w.lists && c.owner.viewable)
    && (forall c :: c in w.sources ==> w.sources[c] in w.lists && c in w.lists[w.sources[c]])
    && (forall o :: o in w.lists ==> Distinct(w.lists[o]))
    && (forall o, c :: o in w.lists && c in w.lists[o] ==> c in w.sources && w.sources[c] == o)
  }

  ghost predicate CanMove(w: World, c: Camera, to: WorldObject) {
    c in w.sources && w.sources[c] in w.lists && to in w.lists && w.sources[c] != to
  }

  /** A camera goes from its source to another object. */
  ghost function Moved(w: World, c: Camera, to: WorldObject): World
    requires CanMove(w, c, to)
  {
    var from := w.sources[c];
    World(w.lists[from := Without(w.lists[from], c)][to := w.lists[to] + [c]], w.sources[c := to])
  }

  lemma MovedMember(w: World, c: Camera, to: WorldObject, o: WorldObject, d: Camera)
    requires Attached(w) && CanMove(w, c, to) && o in w.lists
    ensures d in Moved(w, c, to).lists[o] <==> (d in w.lists[o] && d != c) || (d == c && o == to)
  {
    WithoutMember(w.lists[o], c, d);
    assert o != w.sources[c] ==> c !in w.lists[o];
  }

  lemma MovedDistinct(w: World, c: Camera, to: WorldObject, o: WorldObject)
    requires Attached(w) && CanMove(w, c, to) && o in w.lists
    ensures Distinct(Moved(w, c, to).lists[o])
  {
    WithoutDistinctToo(w.lists[o], c);
    AppendDistinct(w.lists[o], c);
    assert o != w.sources[c] ==> c !in w.lists[o];
  }

  lemma MovedStaysAttached(w: World, c: Camera, to: WorldObject)
    requires Attached(w) && CanMove(w, c, to)
    ensures Attached(Moved(w, c, to))
  {
    var m := Moved(w, c, to);
    forall o, d | o in m.lists && d in m.lists[o]
      ensures d in m.sources && m.sources[d] == o
    {
      MovedMember(w, c, to, o, d);
    }
    forall d | d in m.sources
      ensures m.sources[d] in m.lists && d in m.lists[m.sources[d]]
    {
      MovedMember(w, c, to, m.sources[d], d);
    }
    forall o | o in m.lists
      ensures Distinct(m.lists[o])
    {
      MovedDistinct(w, c, to, o);
    }
  }

  // ---------- SetView ----------

  /** Whether SetView changes anything. */
  predicate Accepts(c: Camera, obj: WorldObject)
    reads c, c.owner
  {
    c.source != obj && obj in c.owner.inMapWith && obj.viewable
  }

  method Move(c: Camera, obj: WorldObject, ghost objects: set<WorldObject>, ghost cams: set<Camera>)
    requires c in cams && obj in objects && c.source in objects && c.source != obj
    modifies c`source, objects`cameras
    ensures Snapshot(objects, cams) == Moved(old(Snapshot(objects, cams)), c, obj) && c.source == obj
  {
    ghost var w, from := Snapshot(objects, cams), c.source;
    c.source.Detach(c);
    c.source := obj;
    c.source.Attach(c);
    assert Snapshot(objects, cams).lists == Moved(w, c, obj).lists by {
      assert forall o <- objects ::
        o.cameras == if o == obj then w.lists[o] + [c] else if o == from then Without(w.lists[o], c) else w.lists[o];
    }
  }

  method SetView(c: Camera, obj: WorldObject, update: bool, ghost objects: set<WorldObject>, ghost cams: set<Camera>)
    requires c in cams && obj in objects && c.source in objects && c.owner in objects
    modifies c`source, objects`cameras, c.owner`farsight
    ensures Snapshot(objects, cams) ==
            if old(Accepts(c, obj)) then Moved(old(Snapshot(objects, cams)), c, obj) else old(Snapshot(objects, cams))
    ensures c.owner.farsight ==
            if old(Accepts(c, obj)) && update then (if obj == c.owner then null else obj) else old(c.owner.farsight)
  {
    if c.source == obj {
      return;
    }
    if obj !in c.owner.inMapWith {
      return;
    }
    if !obj.viewable {
      return;
    }
    Move(c, obj, objects, cams);
    if update {
      c.owner.farsight := if c.source == c.owner then null else c.source;
    }
  }

  method ResetView(c: Camera, update: bool, ghost objects: set<WorldObject>, ghost cams: set<Camera>)
    requires c in cams && c.source in objects && c.owner in objects
    modifies c`source, objects`cameras, c.owner`farsight
    ensures Snapshot(objects, cams) ==
            if old(Accepts(c, c.owner)) then Moved(old(Snapshot(objects, cams)), c, c.owner)
            else old(Snapshot(objects, cams))
    ensures c.owner.farsight == if old(Accepts(c, c.owner)) && update then null else old(c.owner.farsight)
  {
    SetView(c, c.owner, update, objects, cams);
  }

  // ---------- one event for all cameras of a view point ----------

  datatype Event = AddedToWorld | RemovedFromWorld | Moving | VisibilityChanged | VisibilityUpdate

  /** The cameras an event on object o sends back to their owners. */
  ghost predicate Leaves(e: Event, o: WorldObject, c: Camera)
    reads c.owner`inMapWith, c.owner`visible
  {
    && (e == RemovedFromWorld || (e == VisibilityChanged && o !in c.owner.visible))
    && c.owner != o && c.owner in c.owner.inMapWith && c.owner.viewable
  }

  ghost function Leaving(e: Event, o: WorldObject, cams: set<Camera>): set<Camera>
    reads (set c | c in cams :: c.owner)`inMapWith, (set c | c in cams :: c.owner)`visible
  {
    set c | c in cams && Leaves(e, o, c)
  }

  ghost function Handled(w: World, c: Camera, leaving: set<Camera>): World {
    if c in leaving && CanMove(w, c, c.owner) then Moved(w, c, c.owner) else w
  }

  /** The handler of an event, for one camera: only the two that may end the view touch a list. */
  method Handle(e: Event, c: Camera, o: WorldObject, ghost leaving: set<Camera>,
                ghost objects: set<WorldObject>, ghost cams: set<Camera>)
    requires c in cams && c.source == o && o in objects && c.owner in objects && (c in leaving <==> Leaves(e, o, c))
    modifies c`source, objects`cameras, c.owner`farsight
    ensures Snapshot(objects, cams) == Handled(old(Snapshot(objects, cams)), c, leaving)
  {
    match e
    case RemovedFromWorld =>
      if c.source != c.owner {
        ResetView(c, true, objects, cams);
      }
    case VisibilityChanged =>
      if c.source !in c.owner.visible {
        ResetView(c, true, objects, cams);
      }
    case _ =>
  }

  /** The handlers of an event for cameras in order. */
  ghost function HandledAll(w: World, cs: seq<Camera>, leaving: set<Camera>): World {
    if cs == [] then w else Handled(HandledAll(w, cs[..|cs| - 1], leaving), cs[|cs| - 1], leaving)
  }

  lemma HandledStaysAttached(w: World, c: Camera, leaving: set<Camera>)
    requires Attached(w)
    ensures Attached(Handled(w, c, leaving))
    ensures Handled(w, c, leaving).sources.Keys == w.sources.Keys && Handled(w, c, leaving).lists.Keys == w.lists.Keys
  {
    if c in leaving && CanMove(w, c, c.owner) {
      MovedStaysAttached(w, c, c.owner);
    }
  }

  /** Whatever cameras an event sends back, every camera stays in exactly one list, that of its source. */
  lemma {:induction false} EventStaysAttached(w: World, cs: seq<Camera>, leaving: set<Camera>)
    requires Attached(w)
    ensures Attached(HandledAll(w, cs, leaving))
    ensures HandledAll(w, cs, leaving).sources.Keys == w.sources.Keys
    ensures HandledAll(w, cs, leaving).lists.Keys == w.lists.Keys
  {
    if cs != [] {
      EventStaysAttached(w, cs[..|cs| - 1], leaving);
      HandledStaysAttached(HandledAll(w, cs[..|cs| - 1], leaving), cs[|cs| - 1], leaving);
    }
  }

  /** Cameras leave object o for their owners, other objects. */
  ghost predicate LeavesFrom(w: World, o: WorldObject, leaving: set<Camera>) {
    forall c :: c in leaving && c in w.sources ==> c.owner != o && c.owner in w.lists
  }

  /** The cameras of the list that the event sends back to p. */
  ghost function SentTo(cs: seq<Camera>, leaving: set<Camera>, p: WorldObject): seq<Camera> {
    if cs == [] then []
    else
      var c := cs[|cs| - 1];
      SentTo(cs[..|cs| - 1], leaving, p) + if c in leaving && c.owner == p then [c] else []
  }

  lemma HandledSource(v: World, b: Camera, leaving: set<Camera>, c: Camera)
    requires c in v.sources && (b in leaving ==> CanMove(v, b, b.owner))
    ensures var u := Handled(v, b, leaving);
            c in u.sources && u.sources[c] == if c == b && b in leaving then b.owner else v.sources[c]
  {
  }

  lemma ListedIsKnown(w: World, o: WorldObject, n: nat)
    requires Attached(w) && o in w.lists && n < |w.lists[o]|
    ensures w.lists[o][n] in w.sources && w.sources[w.lists[o][n]] == o && w.lists[o][n].owner in w.lists
  {
    assert w.lists[o][n] in w.lists[o];
  }

  lemma HandledLast(w: World, cs: seq<Camera>, n: nat, leaving: set<Camera>)
    requires 0 < n <= |cs|
    ensures HandledAll(w, cs[..n], leaving) == Handled(HandledAll(w, cs[..n - 1], leaving), cs[n - 1], leaving)
  {
    assert cs[..n][..n - 1] == cs[..n - 1];
  }

  /** A camera's source after the first n cameras of o's list have had the event. */
  lemma {:induction false} SourcesAfter(w: World, o: WorldObject, n: nat, leaving: set<Camera>, c: Camera)
    requires Attached(w) && o in w.lists && n <= |w.lists[o]| && LeavesFrom(w, o, leaving) && c in w.sources
    ensures var v := HandledAll(w, w.lists[o][..n], leaving);
            c in v.sources && v.sources[c] == if c in w.lists[o][..n] && c in leaving then c.owner else w.sources[c]
  {
    var all := w.lists[o];
    if n > 0 {
      var v, b := HandledAll(w, all[..n - 1], leaving), all[n - 1];
      LastOfPrefix(all, n);
      HandledLast(w, all, n, leaving);
      ListedIsKnown(w, o, n - 1);
      SourcesAfter(w, o, n - 1, leaving, c);
      SourcesAfter(w, o, n - 1, leaving, b);
      EventStaysAttached(w, all[..n - 1], leaving);
      HandledSource(v, b, leaving, c);
    }
  }

  /** Handling the n-th camera of a list whose first n - 1 have been handled. */
  lemma HandledNth(w: World, o: WorldObject, n: nat, leaving: set<Camera>)
    requires Attached(w) && o in w.lists && 0 < n <= |w.lists[o]| && LeavesFrom(w, o, leaving)
    ensures var v := HandledAll(w, w.lists[o][..n - 1], leaving);
            var c := w.lists[o][n - 1];
            && c in w.sources && c in v.sources && v.sources[c] == o
            && HandledAll(w, w.lists[o][..n], leaving) == Handled(v, c, leaving)
            && (c in leaving ==> CanMove(v, c, c.owner))
  {
    var all, c := w.lists[o], w.lists[o][n - 1];
    LastOfPrefix(all, n);
    HandledLast(w, all, n, leaving);
    ListedIsKnown(w, o, n - 1);
    EventStaysAttached(w, all[..n - 1], leaving);
    SourcesAfter(w, o, n - 1, leaving, c);
  }

  lemma {:induction false} ListAfter(w: World, o: WorldObject, n: nat, leaving: set<Camera>)
    requires Attached(w) && o in w.lists && n <= |w.lists[o]| && LeavesFrom(w, o, leaving)
    ensures var v := HandledAll(w, w.lists[o][..n], leaving);
            o in v.lists && v.lists[o] == Minus(w.lists[o][..n], leaving) + w.lists[o][n..]
  {
    var all := w.lists[o];
    if n > 0 {
      var v, c := HandledAll(w, all[..n - 1], leaving), all[n - 1];
      var kept := Minus(all[..n - 1], leaving);
      ListAfter(w, o, n - 1, leaving);
      HandledNth(w, o, n, leaving);
      LastOfPrefix(all, n);
      MinusSplits(all[..n - 1], [c], leaving);
      MinusMember(all[..n - 1], leaving, c);
      Associate(kept, [c], all[n..]);
      HandledList(v, kept, c, all[n..], leaving);
    }
  }

  /** What becomes of the list of the camera that is handled. */
  lemma HandledList(v: World, kept: seq<Camera>, c: Camera, rest: seq<Camera>, leaving: set<Camera>)
    requires c in v.sources && (c in leaving ==> CanMove(v, c, c.owner))
    requires v.sources[c] in v.lists && v.lists[v.sources[c]] == kept + [c] + rest && c !in kept && c !in rest
    ensures var u, o := Handled(v, c, leaving), v.sources[c];
            o in u.lists && u.lists[o] == kept + Minus([c], leaving) + rest
  {
    WithoutDistinct(kept, c, rest);
  }

  lemma {:induction false} OtherListAfter(w: World, o: WorldObject, n: nat, leaving: set<Camera>, p: WorldObject)
    requires Attached(w) && o in w.lists && n <= |w.lists[o]| && LeavesFrom(w, o, leaving) && p in w.lists && p != o
    ensures var v := HandledAll(w, w.lists[o][..n], leaving);
            p in v.lists && v.lists[p] == w.lists[p] + SentTo(w.lists[o][..n], leaving, p)
  {
    var all := w.lists[o];
    if n > 0 {
      OtherListAfter(w, o, n - 1, leaving, p);
      HandledNth(w, o, n, leaving);
      assert all[..n][..n - 1] == all[..n - 1];
    }
  }

  /** What an event on o does to all lists: the leaving cameras are gone from o's list, the others stay in
      order, and each leaving one is at the end of its owner's list, also in order. */
  lemma EventMovesLeaving(w: World, o: WorldObject, leaving: set<Camera>)
    requires Attached(w) && o in w.lists && LeavesFrom(w, o, leaving)
    ensures var v := HandledAll(w, w.lists[o], leaving);
            && Attached(v) && v.lists.Keys == w.lists.Keys && v.sources.Keys == w.sources.Keys
            && v.lists[o] == Minus(w.lists[o], leaving)
            && (forall p :: p in w.lists && p != o ==> v.lists[p] == w.lists[p] + SentTo(w.lists[o], leaving, p))
            && forall c :: c in w.sources ==>
                 v.sources[c] == if c in w.lists[o] && c in leaving then c.owner else w.sources[c]
  {
    var all := w.lists[o];
    assert all[..|all|] == all;
    EventStaysAttached(w, all, leaving);
    ListAfter(w, o, |all|, leaving);
    forall p | p in w.lists && p != o
      ensures HandledAll(w, all, leaving).lists[p] == w.lists[p] + SentTo(all, leaving, p)
    {
      OtherListAfter(w, o, |all|, leaving, p);
    }
    forall c | c in w.sources
      ensures HandledAll(w, all, leaving).sources[c] == if c in all && c in leaving then c.owner else w.sources[c]
    {
      SourcesAfter(w, o, |all|, leaving, c);
    }
  }

  // ---------- CameraCall ----------

  /** The camera behind c in the list, or none: a list iterator moved one on. */
  function Behind(s: seq<Camera>, c: Camera): Camera?
    requires c in s
  {
    if s[0] == c then (if |s| > 1 then s[1] else null)
    else Behind(s[1..], c)
  }

  lemma {:induction false} BehindIsNext(a: seq<Camera>, c: Camera, b: seq<Camera>)
    requires c !in a
    ensures c in a + [c] + b
    ensures Behind(a + [c] + b, c) == if b == [] then null else b[0]
  {
    var s := a + [c] + b;
    assert s[|a|] == c;
    if a != [] {
      BehindIsNext(a[1..], c, b);
      assert s[1..] == a[1..] + [c] + b;
    }
  }

  /** With n cameras of o's list handled, the next one is still in it, and so is the one behind it. */
  lemma NextIsAttached(w: World, o: WorldObject, n: nat, leaving: set<Camera>, now: seq<Camera>)
    requires Attached(w) && o in w.lists && n < |w.lists[o]| && LeavesFrom(w, o, leaving)
    requires o in HandledAll(w, w.lists[o][..n], leaving).lists
    requires now == HandledAll(w, w.lists[o][..n], leaving).lists[o]
    ensures w.lists[o][n] in now
    ensures Behind(now, w.lists[o][n]) == if n + 1 == |w.lists[o]| then null else w.lists[o][n + 1]
  {
    var all := w.lists[o];
    ListAfter(w, o, n, leaving);
    assert all[n..] == [all[n]] + all[n + 1..];
    assert now == Minus(all[..n], leaving) + [all[n]] + all[n + 1..];
    MinusMember(all[..n], leaving, all[n]);
    BehindIsNext(Minus(all[..n], leaving), all[n], all[n + 1..]);
  }

  /** One round of CameraCall: the iterator moves on, then the handler runs. */
  method Visit(e: Event, o: WorldObject, c: Camera, ghost n: nat, ghost w: World, ghost leaving: set<Camera>,
               ghost objects: set<WorldObject>, ghost cams: set<Camera>)
    returns (itr: Camera?)
    requires Attached(w) && o in w.lists && n < |w.lists[o]| && c == w.lists[o][n] && LeavesFrom(w, o, leaving)
    requires w.sources.Keys == cams && w.lists.Keys == objects && (c in leaving <==> Leaves(e, o, c))
    requires Snapshot(objects, cams) == HandledAll(w, w.lists[o][..n], leaving)
    modifies cams`source, objects`cameras, objects`farsight
    ensures Snapshot(objects, cams) == HandledAll(w, w.lists[o][..n + 1], leaving)
    ensures itr == if n + 1 == |w.lists[o]| then null else w.lists[o][n + 1]
  {
    ListedIsKnown(w, o, n);
    HandledNth(w, o, n + 1, leaving);
    assert Snapshot(objects, cams).lists[o] == o.cameras && Snapshot(objects, cams).sources[c] == c.source;
    NextIsAttached(w, o, n, leaving, o.cameras);
    itr := Behind(o.cameras, c);
    Handle(e, c, o, leaving, objects, cams);
  }

  /** The loop of CameraCall. The iterator has moved on before the handler runs, so that a camera may leave
      the list. */
  method VisitAll(e: Event, o: WorldObject, ghost w: World, ghost leaving: set<Camera>,
                  ghost objects: set<WorldObject>, ghost cams: set<Camera>)
    returns (visited: seq<Camera>)
    requires Attached(w) && o in w.lists && LeavesFrom(w, o, leaving) && w.lists[o] == o.cameras
    requires w.sources.Keys == cams && w.lists.Keys == objects && Snapshot(objects, cams) == w
    requires forall c <- o.cameras :: c in leaving <==> Leaves(e, o, c)
    modifies cams`source, objects`cameras, objects`farsight
    ensures visited == w.lists[o] && Snapshot(objects, cams) == HandledAll(w, w.lists[o], leaving)
  {
    ghost var all := o.cameras;
    visited := [];
    if o.cameras == [] {
      return;
    }
    var itr: Camera? := o.cameras[0];
    while itr != null
      invariant |visited| <= |all| && visited == all[..|visited|]
      invariant itr == if |visited| == |all| then null else all[|visited|]
      invariant Snapshot(objects, cams) == HandledAll(w, all[..|visited|], leaving)
      decreases |all| - |visited|
    {
      var c: Camera := itr;
      assert c == all[|visited|] && Leaves(e, o, c) == old(Leaves(e, o, c));
      itr := Visit(e, o, c, |visited|, w, leaving, objects, cams);
      visited := visited + [c];
    }
    assert all[..|all|] == all;
  }

  /** Calls the handler for each camera of o's view point: every camera that was attached is visited, once,
      in order. */
  method CameraCall(e: Event, o: WorldObject, ghost objects: set<WorldObject>, ghost cams: set<Camera>)
    returns (visited: seq<Camera>)
    requires Attached(Snapshot(objects, cams)) && o in objects
    modifies cams`source, objects`cameras, objects`farsight
    ensures visited == old(o.cameras)
    ensures Snapshot(objects, cams) ==
            HandledAll(old(Snapshot(objects, cams)), old(o.cameras), old(Leaving(e, o, cams)))
  {
    ghost var w, leaving := Snapshot(objects, cams), Leaving(e, o, cams);
    assert w.lists[o] == o.cameras && w.sources.Keys == cams && w.lists.Keys == objects;
    forall c <- o.cameras
      ensures c in cams
    {
      assert w.lists[o] == o.cameras;
    }
    visited := VisitAll(e, o, w, leaving, objects, cams);
  }

  // ---------- the two events that end a view ----------

  /** An object leaves the world: of its viewers only its own camera stays, and those of players that are
      not in map themselves, whose reset is refused. The others look from their owners again. */
  method EventRemovedFromWorld(o: WorldObject, ghost objects: set<WorldObject>, ghost cams: set<Camera>)
    requires Attached(Snapshot(objects, cams)) && o in objects
    modifies cams`source, objects`cameras, objects`farsight
    ensures Snapshot(objects, cams) ==
            HandledAll(old(Snapshot(objects, cams)), old(o.cameras), old(Leaving(RemovedFromWorld, o, cams)))
    ensures forall c :: c in o.cameras <==>
              c in old(o.cameras) && (c.owner == o || c.owner !in old(c.owner.inMapWith))
    ensures forall c :: c in old(o.cameras) && c !in o.cameras ==> c.source == c.owner
  {
    ghost var w, leaving := Snapshot(objects, cams), Leaving(RemovedFromWorld, o, cams);
    EventMovesLeaving(w, o, leaving);
    ghost var all := o.cameras;
    assert w.lists[o] == all;
    var visited := CameraCall(RemovedFromWorld, o, objects, cams);
    assert Snapshot(objects, cams).lists[o] == o.cameras == Minus(all, leaving);
    forall c
      ensures c in o.cameras <==> c in all && (c.owner == o || c.owner !in old(c.owner.inMapWith))
    {
      MinusMember(all, leaving, c);
    }
    forall c | c in all && c !in o.cameras
      ensures c.source == c.owner
    {
      MinusMember(all, leaving, c);
      assert Snapshot(objects, cams).sources[c] == c.source;
    }
  }

  /** An object's visibility changes: the viewers that cannot see it any more go back to their owners, but for
      its own camera and those whose reset is refused. */
  method EventVisibilityChanged(o: WorldObject, ghost objects: set<WorldObject>, ghost cams: set<Camera>)
    requires Attached(Snapshot(objects, cams)) && o in objects
    modifies cams`source, objects`cameras, objects`farsight
    ensures Snapshot(objects, cams) ==
            HandledAll(old(Snapshot(objects, cams)), old(o.cameras), old(Leaving(VisibilityChanged, o, cams)))
    ensures forall c :: c in o.cameras <==>
              c in old(o.cameras) && (o in old(c.owner.visible) || c.owner == o || c.owner !in old(c.owner.inMapWith))
    ensures forall c :: c in old(o.cameras) && c !in o.cameras ==> c.source == c.owner
  {
    ghost var w, leaving := Snapshot(objects, cams), Leaving(VisibilityChanged, o, cams);
    EventMovesLeaving(w, o, leaving);
    ghost var all := o.cameras;
    assert w.lists[o] == all;
    var visited := CameraCall(VisibilityChanged, o, objects, cams);
    assert Snapshot(objects, cams).lists[o] == o.cameras == Minus(all, leaving);
    forall c
      ensures c in o.cameras <==>
                c in all && (o in old(c.owner.visible) || c.owner == o || c.owner !in old(c.owner.inMapWith))
    {
      MinusMember(all, leaving, c);
    }
    forall c | c in all && c !in o.cameras
      ensures c.source == c.owner
    {
      MinusMember(all, leaving, c);
      assert Snapshot(objects, cams).sources[c] == c.source;
    }
  }

  // ---------- runs ----------

  /** Everything that can happen to lists and sources. */
  datatype Action =
    | Turn(c: Camera, to: WorldObject)
    | Occur(o: WorldObject, leaving: set<Camera>)
    | Create(c: Camera)
    | Destroy(c: Camera)
    | Appear(o: WorldObject)

  ghost predicate Possible(w: World, a: Action) {
    match a
    case Turn(c, to) => CanMove(w, c, to)
    case Occur(o, leaving) => o in w.lists && LeavesFrom(w, o, leaving)
    case Create(c) => c !in w.sources && c.owner in w.lists && c.owner.viewable
    case Destroy(c) => c in w.sources && w.sources[c] == c.owner
    case Appear(o) => o !in w.lists
  }

  /** A camera is gone, from its owner's list as well. */
  ghost function Destroyed(w: World, c: Camera): World
    requires c in w.sources && c.owner in w.lists
  {
    World(w.lists[c.owner := Without(w.lists[c.owner], c)], w.sources - {c})
  }

  ghost function After(w: World, a: Action): World
    requires Attached(w) && Possible(w, a)
  {
    match a
    case Turn(c, to) => Moved(w, c, to)
    case Occur(o, leaving) => HandledAll(w, w.lists[o], leaving)
    case Create(c) => World(w.lists[c.owner := w.lists[c.owner] + [c]], w.sources[c := c.owner])
    case Destroy(c) => Destroyed(w, c)
    case Appear(o) => World(w.lists[o := []], w.sources)
  }

  lemma CreateStaysAttached(w: World, c: Camera)
    requires Attached(w) && Possible(w, Create(c))
    ensures Attached(After(w, Create(c)))
  {
    AppendDistinct(w.lists[c.owner], c);
    assert c !in w.lists[c.owner];
  }

  lemma DestroyedMember(w: World, c: Camera, o: WorldObject, d: Camera)
    requires Attached(w) && Possible(w, Destroy(c)) && o in w.lists
    ensures d in Destroyed(w, c).lists[o] <==> d in w.lists[o] && d != c
    ensures Distinct(Destroyed(w, c).lists[o])
  {
    WithoutMember(w.lists[o], c, d);
    WithoutDistinctToo(w.lists[o], c);
    assert o != c.owner ==> c !in w.lists[o];
  }

  lemma DestroyStaysAttached(w: World, c: Camera)
    requires Attached(w) && Possible(w, Destroy(c))
    ensures Attached(Destroyed(w, c))
  {
    var v := Destroyed(w, c);
    forall o, d | o in v.lists && d in v.lists[o]
      ensures d in v.sources && v.sources[d] == o
    {
      DestroyedMember(w, c, o, d);
    }
    forall d | d in v.sources
      ensures v.sources[d] in v.lists && d in v.lists[v.sources[d]]
    {
      DestroyedMember(w, c, w.sources[d], d);
    }
    forall o | o in v.lists
      ensures Distinct(v.lists[o])
    {
      DestroyedMember(w, c, o, c);
    }
  }

  lemma ActionStaysAttached(w: World, a: Action)
    requires Attached(w) && Possible(w, a)
    ensures Attached(After(w, a))
  {
    match a
    case Turn(c, to) => MovedStaysAttached(w, c, to);
    case Occur(o, leaving) => EventStaysAttached(w, w.lists[o], leaving);
    case Create(c) => CreateStaysAttached(w, c);
    case Destroy(c) => DestroyStaysAttached(w, c);
    case Appear(o) =>
  }

  /** Each action of the run is possible where it happens. */
  ghost predicate PossibleRun(w: World, actions: seq<Action>)
    requires Attached(w)
    decreases |actions|
  {
    actions != [] ==>
      Possible(w, actions[0]) && (ActionStaysAttached(w, actions[0]); PossibleRun(After(w, actions[0]), actions[1..]))
  }

  ghost function EndOf(w: World, actions: seq<Action>): World
    requires Attached(w) && PossibleRun(w, actions)
    decreases |actions|
  {
    if actions == [] then w
    else
      ActionStaysAttached(w, actions[0]);
      EndOf(After(w, actions[0]), actions[1..])
  }

  lemma {:induction false} RunStaysAttached(w: World, actions: seq<Action>)
    requires Attached(w) && PossibleRun(w, actions)
    ensures Attached(EndOf(w, actions))
    decreases |actions|
  {
    if actions != [] {
      ActionStaysAttached(w, actions[0]);
      RunStaysAttached(After(w, actions[0]), actions[1..]);
    }
  }

  lemma {:induction false} DistinctCount<T>(s: seq<T>, x: T)
    requires Distinct(s)
    ensures multiset(s)[x] == if x in s then 1 else 0
  {
    if s != [] {
      HeadIsAlone(s);
      DistinctCount(s[1..], x);
      assert s == [s[0]] + s[1..];
    }
  }

  /** After any run from the empty world, every live camera occurs exactly once in the list of its source and
      in no other list. */
  lemma EachCameraInOneList(actions: seq<Action>, c: Camera, o: WorldObject)
    requires PossibleRun(World(map[], map[]), actions)
    requires c in EndOf(World(map[], map[]), actions).sources && o in EndOf(World(map[], map[]), actions).lists
    ensures var v := EndOf(World(map[], map[]), actions);
            multiset(v.lists[o])[c] == if v.sources[c] == o then 1 else 0
  {
    RunStaysAttached(World(map[], map[]), actions);
    DistinctCount(EndOf(World(map[], map[]), actions).lists[o], c);
  }
}
