/** A loot and the lists each looter gets (struct Loot): which entries a player may take, and the
    shared counter of what is not looted yet. Random counts are parameters; `AllowedForPlayer` is a
    function of the item that the caller supplies for the player at hand. */
module Loot {
  import opened Basics
  import opened Runs

  const MAX_NR_LOOT_ITEMS := 16
  const MAX_NR_QUEST_ITEMS := 32

  /** mincountOrRef is a least count if positive and a referenced template if negative. */
  datatype LootStoreItem = LootStoreItem(
    itemid: nat, chance: real, mincountOrRef: int, group: nat, needsQuest: bool, maxcount: nat, conditionId: nat)

  datatype LootItem = LootItem(
    itemid: nat, conditionId: nat, count: nat, isLooted: bool, isBlocked: bool, freeForAll: bool,
    isUnderThreshold: bool, isCounted: bool, needsQuest: bool)

  datatype QuestItem = QuestItem(index: nat, isLooted: bool)

  type PlayerLists = map<nat, seq<QuestItem>>

  datatype State = State(
    items: seq<LootItem>, questItems: seq<LootItem>, unlooted: Uint8,
    playerQuest: PlayerLists, playerFFA: PlayerLists, playerConditional: PlayerLists)

  const EMPTY := State([], [], 0, map[], map[], map[])

  lemma {:induction false} ByteIsModulo(n: nat)
    ensures Byte(n) == n % 256
  {
    if n >= 256 { ByteIsModulo(n - 256); }
  }

  /** n increments of the counter. */
  function Raise(counter: Uint8, n: nat): Uint8 { Byte(counter + n) }

  function CountIf<T>(s: seq<T>, p: T -> bool): nat {
    if s == [] then 0 else CountIf(s[..|s| - 1], p) + (if p(s[|s| - 1]) then 1 else 0)
  }

  /** The entries a fill loop collects: one per element that passes, in order. */
  function Select(items: seq<LootItem>, p: LootItem -> bool): seq<QuestItem> {
    if items == [] then []
    else Select(items[..|items| - 1], p) + (if p(items[|items| - 1]) then [QuestItem(|items| - 1, false)] else [])
  }

  /** A player's list, empty if there is none. */
  function ListOf(lists: PlayerLists, player: nat): seq<QuestItem> {
    if player in lists then lists[player] else []
  }

  // ---------- operations ----------

  function NewItem(item: LootStoreItem, partyLoot: nat -> bool, count: nat): LootItem {
    LootItem(item.itemid, item.conditionId, count, false, false, partyLoot(item.itemid), false, false, item.needsQuest)
  }

  function AddItem(s: State, item: LootStoreItem, partyLoot: nat -> bool, count: nat): State {
    if item.needsQuest then
      if |s.questItems| < MAX_NR_QUEST_ITEMS then s.(questItems := s.questItems + [NewItem(item, partyLoot, count)])
      else s
    else if |s.items| < MAX_NR_LOOT_ITEMS then
      s.(items := s.items + [NewItem(item, partyLoot, count)],
         unlooted := if item.conditionId == 0 && !partyLoot(item.itemid) then Raise(s.unlooted, 1) else s.unlooted)
    else s
  }

  function FFAFor(allowed: LootItem -> bool): LootItem -> bool {
    (x: LootItem) => !x.isLooted && x.freeForAll && allowed(x)
  }

  function QuestFor(allowed: LootItem -> bool): LootItem -> bool {
    (x: LootItem) => !x.isLooted && allowed(x)
  }

  function ConditionalFor(allowed: LootItem -> bool): LootItem -> bool {
    (x: LootItem) => !x.isLooted && !x.freeForAll && x.conditionId != 0 && allowed(x)
  }

  function FillFFA(s: State, player: nat, allowed: LootItem -> bool): State {
    var ql := Select(s.items, FFAFor(allowed));
    if ql == [] then s
    else s.(playerFFA := s.playerFFA[player := ql], unlooted := Raise(s.unlooted, |ql|))
  }

  /** The quest list stops where the slots of the player would exceed the window. */
  function QuestList(s: State, allowed: LootItem -> bool): seq<QuestItem> {
    var all := Select(s.questItems, QuestFor(allowed));
    var room := MAX_NR_LOOT_ITEMS - |s.items|;
    if 0 <= room < |all| then all[..room] else all
  }

  /** How many of the listed quest items the fill counts: free-for-all ones per looter, others once. */
  function QuestCount(questItems: seq<LootItem>, ql: seq<QuestItem>): nat {
    FFACount(questItems, ql) + FreshCount(questItems, ql)
  }

  /** Listed free-for-all quest items. */
  function FFACount(questItems: seq<LootItem>, ql: seq<QuestItem>): nat {
    if ql == [] then 0
    else
      var q := ql[|ql| - 1];
      FFACount(questItems, ql[..|ql| - 1]) + (if q.index < |questItems| && questItems[q.index].freeForAll then 1 else 0)
  }

  /** Listed quest items for one looter that nobody's list blocked before. */
  function FreshCount(questItems: seq<LootItem>, ql: seq<QuestItem>): nat {
    if ql == [] then 0
    else
      var q := ql[|ql| - 1];
      FreshCount(questItems, ql[..|ql| - 1]) +
      (if q.index < |questItems| && !questItems[q.index].freeForAll && !questItems[q.index].isBlocked then 1 else 0)
  }

  function Holds(ql: seq<QuestItem>, i: nat): bool { exists k :: 0 <= k < |ql| && ql[k].index == i }

  function BlockListed(questItems: seq<LootItem>, ql: seq<QuestItem>): seq<LootItem> {
    seq(|questItems|, i requires 0 <= i < |questItems| =>
      if Holds(ql, i) then questItems[i].(isBlocked := true) else questItems[i])
  }

  /** The player gets the list; its items are blocked and counted. */
  function Claim(s: State, player: nat, ql: seq<QuestItem>): State {
    s.(questItems := BlockListed(s.questItems, ql),
       playerQuest := s.playerQuest[player := ql],
       unlooted := Raise(s.unlooted, QuestCount(s.questItems, ql)))
  }

  function FillQuest(s: State, player: nat, allowed: LootItem -> bool): State {
    if |s.items| == MAX_NR_LOOT_ITEMS || QuestList(s, allowed) == [] then s
    else Claim(s, player, QuestList(s, allowed))
  }

  function CountListed(items: seq<LootItem>, p: LootItem -> bool): seq<LootItem> {
    seq(|items|, i requires 0 <= i < |items| => if p(items[i]) then items[i].(isCounted := true) else items[i])
  }

  function Uncounted(p: LootItem -> bool): LootItem -> bool { (x: LootItem) => p(x) && !x.isCounted }

  function FillConditional(s: State, player: nat, allowed: LootItem -> bool): State {
    var p := ConditionalFor(allowed);
    var ql := Select(s.items, p);
    if ql == [] then s
    else s.(items := CountListed(s.items, p),
            playerConditional := s.playerConditional[player := ql],
            unlooted := Raise(s.unlooted, CountIf(s.items, Uncounted(p))))
  }

  /** Players outside the world get nothing; every list is made once per player. */
  function FillNotNormalLootFor(s: State, player: nat, inWorld: bool, allowed: LootItem -> bool): State {
    if !inWorld then s
    else
      var s1 := if player in s.playerQuest then s else FillQuest(s, player, allowed);
      var s2 := if player in s1.playerFFA then s1 else FillFFA(s1, player, allowed);
      if player in s2.playerConditional then s2 else FillConditional(s2, player, allowed)
  }

  // ---------- what the counter counts ----------

  ghost function Sum(m: map<nat, nat>): nat {
    if m == map[] then 0 else var k :| k in m; m[k] + Sum(m - {k})
  }

  lemma {:induction false} SumTakesOut(m: map<nat, nat>, k: nat)
    requires k in m
    ensures Sum(m) == m[k] + Sum(m - {k})
  {
    var j :| j in m && Sum(m) == m[j] + Sum(m - {j});
    if j != k {
      SumTakesOut(m - {j}, k);
      SumTakesOut(m - {k}, j);
      assert m - {j} - {k} == m - {k} - {j};
    }
  }

  lemma SumGrows(m: map<nat, nat>, k: nat, n: nat)
    requires k !in m
    ensures Sum(m[k := n]) == Sum(m) + n
  {
    SumTakesOut(m[k := n], k);
    assert m[k := n] - {k} == m;
  }

  ghost function Lengths(lists: PlayerLists): map<nat, nat> { map p | p in lists :: |lists[p]| }

  ghost function FFACounts(questItems: seq<LootItem>, lists: PlayerLists): map<nat, nat> {
    map p | p in lists :: FFACount(questItems, lists[p])
  }

  predicate Plain(x: LootItem) { x.conditionId == 0 && !x.freeForAll }

  predicate Counted(x: LootItem) { x.isCounted }

  predicate Claimed(x: LootItem) { x.isBlocked && !x.freeForAll }

  predicate ForAll(x: LootItem) { x.freeForAll }

  predicate Conditional(x: LootItem) { !x.freeForAll && x.conditionId != 0 }

  predicate Any(x: LootItem) { true }

  /** Everything still to be counted down: unconditional items for one looter, each player's
      free-for-all entries, counted conditional items, blocked quest items for one looter, and each
      player's free-for-all quest entries. */
  ghost function Outstanding(s: State): nat {
    CountIf(s.items, Plain) + Sum(Lengths(s.playerFFA)) + CountIf(s.items, Counted) + QuestOutstanding(s)
  }

  ghost function QuestOutstanding(s: State): nat {
    CountIf(s.questItems, Claimed) + Sum(FFACounts(s.questItems, s.playerQuest))
  }

  /** A list of a player: strictly increasing indices of items that pass. */
  predicate Indexes(ql: seq<QuestItem>, items: seq<LootItem>, p: LootItem -> bool) {
    && (forall k :: 0 <= k < |ql| ==> ql[k].index < |items| && p(items[ql[k].index]))
    && (forall k, l :: 0 <= k < l < |ql| ==> ql[k].index < ql[l].index)
  }

  /** Only conditional items are ever marked as counted. */
  predicate CountedOnce(items: seq<LootItem>) {
    forall i :: 0 <= i < |items| && items[i].isCounted ==> Conditional(items[i])
  }

  predicate WellFormed(s: State) {
    && |s.items| <= MAX_NR_LOOT_ITEMS && |s.questItems| <= MAX_NR_QUEST_ITEMS && CountedOnce(s.items)
    && (forall p <- s.playerFFA.Keys :: Indexes(s.playerFFA[p], s.items, ForAll))
    && (forall p <- s.playerConditional.Keys ::
          Indexes(s.playerConditional[p], s.items, Conditional))
    && (forall p <- s.playerQuest.Keys :: Indexes(s.playerQuest[p], s.questItems, Any))
  }

  /** The counter equals what it counts, in a byte. */
  ghost predicate Balanced(s: State) { WellFormed(s) && Tallies(s.unlooted, Outstanding(s)) }

  predicate Tallies(unlooted: Uint8, outstanding: nat) { unlooted == Byte(outstanding) }

  /** No player's items and quest items exceed the loot window. */
  predicate FitsWindow(s: State) {
    forall p <- s.playerQuest.Keys :: |s.items| + |s.playerQuest[p]| <= MAX_NR_LOOT_ITEMS
  }

  // ---------- counting lemmas ----------

  lemma {:induction false} CountUpdate<T>(s: seq<T>, i: nat, x: T, p: T -> bool)
    requires i < |s|
    ensures CountIf(s[i := x], p) + (if p(s[i]) then 1 else 0) == CountIf(s, p) + (if p(x) then 1 else 0)
  {
    var front := s[..|s| - 1];
    if i == |s| - 1 {
      assert s[i := x][..|s| - 1] == front;
    } else {
      CountUpdate(front, i, x, p);
      assert s[i := x][..|s| - 1] == front[i := x];
    }
  }

  lemma CountAppend<T>(s: seq<T>, x: T, p: T -> bool)
    ensures CountIf(s + [x], p) == CountIf(s, p) + (if p(x) then 1 else 0)
  {
    assert (s + [x])[..|s|] == s;
  }

  lemma {:induction false} CountAtMost<T>(s: seq<T>, p: T -> bool)
    ensures CountIf(s, p) <= |s|
  {
    if s != [] { CountAtMost(s[..|s| - 1], p); }
  }

  lemma {:induction false} CountPointwise<T>(s: seq<T>, t: seq<T>, p: T -> bool)
    requires |s| == |t| && forall i :: 0 <= i < |s| ==> p(s[i]) == p(t[i])
    ensures CountIf(s, p) == CountIf(t, p)
  {
    if s != [] { CountPointwise(s[..|s| - 1], t[..|t| - 1], p); }
  }

  lemma {:induction false} SelectIndexes(items: seq<LootItem>, p: LootItem -> bool)
    ensures Indexes(Select(items, p), items, p)
    ensures forall q <- Select(items, p) :: !q.isLooted
    ensures |Select(items, p)| == CountIf(items, p)
  {
    if items != [] {
      SelectIndexes(items[..|items| - 1], p);
    }
  }

  /** A selection misses nobody. */
  lemma {:induction false} SelectComplete(items: seq<LootItem>, p: LootItem -> bool, i: nat)
    requires i < |items|
    ensures p(items[i]) <==> Holds(Select(items, p), i)
  {
    var front := items[..|items| - 1];
    SelectIndexes(front, p);
    if i < |front| {
      SelectComplete(front, p, i);
    }
    HoldsMore(Select(front, p), QuestItem(|front|, false), i);
    assert Select(items, p) == Select(front, p) + (if p(items[|front|]) then [QuestItem(|front|, false)] else []);
  }

  lemma HoldsMore(ql: seq<QuestItem>, q: QuestItem, i: nat)
    ensures Holds(ql + [q], i) <==> Holds(ql, i) || q.index == i
    ensures ql + [] == ql
  {
    var longer := ql + [q];
    if Holds(ql, i) {
      var k :| 0 <= k < |ql| && ql[k].index == i;
      assert longer[k].index == i;
    }
    if q.index == i {
      assert longer[|ql|].index == i;
    }
  }

  /** Blocking the listed items claims exactly the fresh ones. */
  lemma {:induction false} BlockingClaims(questItems: seq<LootItem>, ql: seq<QuestItem>)
    requires Indexes(ql, questItems, Any)
    ensures CountIf(BlockListed(questItems, ql), Claimed) == CountIf(questItems, Claimed) + FreshCount(questItems, ql)
  {
    if ql == [] {
      assert BlockListed(questItems, ql) == questItems;
    } else {
      var front, i := ql[..|ql| - 1], ql[|ql| - 1].index;
      BlockingClaims(questItems, front);
      var blocked := BlockListed(questItems, front);
      assert !Holds(front, i);
      assert blocked[i] == questItems[i];
      BlockLast(questItems, ql);
      CountUpdate(blocked, i, questItems[i].(isBlocked := true), Claimed);
    }
  }

  lemma BlockLast(questItems: seq<LootItem>, ql: seq<QuestItem>)
    requires ql != [] && ql[|ql| - 1].index < |questItems|
    ensures var i := ql[|ql| - 1].index;
            BlockListed(questItems, ql)
            == BlockListed(questItems, ql[..|ql| - 1])[i := questItems[i].(isBlocked := true)]
  {
    var front, i := ql[..|ql| - 1], ql[|ql| - 1].index;
    forall j | 0 <= j < |questItems|
      ensures Holds(ql, j) <==> Holds(front, j) || j == i
    {
      if Holds(front, j) {
        var k :| 0 <= k < |front| && front[k].index == j;
        assert ql[k].index == j;
      }
      if j == i { assert ql[|ql| - 1].index == j; }
    }
  }

  lemma {:induction false} FFACountSame(a: seq<LootItem>, b: seq<LootItem>, ql: seq<QuestItem>)
    requires Indexes(ql, a, Any) && |a| <= |b| && forall i :: 0 <= i < |a| ==> a[i].freeForAll == b[i].freeForAll
    ensures FFACount(a, ql) == FFACount(b, ql)
  {
    if ql != [] { FFACountSame(a, b, ql[..|ql| - 1]); }
  }

  lemma FFACountsSame(a: seq<LootItem>, b: seq<LootItem>, lists: PlayerLists)
    requires forall p <- lists.Keys :: Indexes(lists[p], a, Any)
    requires |a| <= |b| && forall i :: 0 <= i < |a| ==> a[i].freeForAll == b[i].freeForAll
    ensures FFACounts(a, lists) == FFACounts(b, lists)
  {
    forall p <- lists.Keys
      ensures FFACount(a, lists[p]) == FFACount(b, lists[p])
    {
      FFACountSame(a, b, lists[p]);
    }
  }

  /** Marking counts exactly the passing items that were not counted yet. */
  lemma {:induction false} MarkingCounts(items: seq<LootItem>, p: LootItem -> bool)
    ensures CountIf(CountListed(items, p), Counted) == CountIf(items, Counted) + CountIf(items, Uncounted(p))
    ensures CountIf(CountListed(items, p), Plain) == CountIf(items, Plain)
  {
    if items != [] {
      MarkingCounts(items[..|items| - 1], p);
      assert CountListed(items, p)[..|items| - 1] == CountListed(items[..|items| - 1], p);
    }
  }

  lemma {:induction false} ByteAdds(a: nat, b: nat)
    ensures Byte(Byte(a) + b) == Byte(a + b)
  {
    if a >= 256 {
      ByteAdds(a - 256, b);
      assert Byte(a + b) == Byte(a + b - 256);
    }
  }

  lemma RaiseNext(counter: Uint8, n: nat)
    ensures Raise(Raise(counter, n), 1) == Raise(counter, n + 1)
    ensures Raise(counter, 0) == counter
  {
    ByteAdds(counter + n, 1);
  }

  lemma StillTallies(unlooted: Uint8, outstanding: nat, n: nat)
    requires Tallies(unlooted, outstanding)
    ensures Tallies(Raise(unlooted, n), outstanding + n)
  {
    ByteAdds(outstanding, n);
  }

  lemma IndexesStay(ql: seq<QuestItem>, a: seq<LootItem>, b: seq<LootItem>, p: LootItem -> bool)
    requires Indexes(ql, a, p) && |a| <= |b| && forall i :: 0 <= i < |a| ==> p(a[i]) ==> p(b[i])
    ensures Indexes(ql, b, p)
  {
  }

  // ---------- every operation keeps the balance ----------

  lemma AddItemKeepsLists(s: State, item: LootStoreItem, partyLoot: nat -> bool, count: nat)
    requires WellFormed(s)
    ensures WellFormed(AddItem(s, item, partyLoot, count))
  {
    var s' := AddItem(s, item, partyLoot, count);
    forall p <- s.playerFFA.Keys ensures Indexes(s.playerFFA[p], s'.items, ForAll) {
      IndexesStay(s.playerFFA[p], s.items, s'.items, ForAll);
    }
    forall p <- s.playerConditional.Keys ensures Indexes(s.playerConditional[p], s'.items, Conditional) {
      IndexesStay(s.playerConditional[p], s.items, s'.items, Conditional);
    }
    forall p <- s.playerQuest.Keys ensures Indexes(s.playerQuest[p], s'.questItems, Any) {
      IndexesStay(s.playerQuest[p], s.questItems, s'.questItems, Any);
    }
  }

  lemma AddItemCounts(s: State, item: LootStoreItem, partyLoot: nat -> bool, count: nat)
    requires WellFormed(s)
    ensures var grown := !item.needsQuest && |s.items| < MAX_NR_LOOT_ITEMS && item.conditionId == 0
                         && !partyLoot(item.itemid);
            Outstanding(AddItem(s, item, partyLoot, count)) == Outstanding(s) + (if grown then 1 else 0)
  {
    var x := NewItem(item, partyLoot, count);
    var s' := AddItem(s, item, partyLoot, count);
    CountAppend(s.items, x, Plain);
    CountAppend(s.items, x, Counted);
    AddItemKeepsQuests(s, item, partyLoot, count);
  }

  /** A new quest item is nobody's yet. */
  lemma AddItemKeepsQuests(s: State, item: LootStoreItem, partyLoot: nat -> bool, count: nat)
    requires WellFormed(s)
    ensures QuestOutstanding(AddItem(s, item, partyLoot, count)) == QuestOutstanding(s)
  {
    CountAppend(s.questItems, NewItem(item, partyLoot, count), Claimed);
    FFACountsSame(s.questItems, AddItem(s, item, partyLoot, count).questItems, s.playerQuest);
  }

  lemma AddItemBalances(s: State, item: LootStoreItem, partyLoot: nat -> bool, count: nat)
    requires Balanced(s)
    ensures Balanced(AddItem(s, item, partyLoot, count))
  {
    AddItemKeepsLists(s, item, partyLoot, count);
    AddItemCounts(s, item, partyLoot, count);
    var s' := AddItem(s, item, partyLoot, count);
    StillTallies(s.unlooted, Outstanding(s), Outstanding(s') - Outstanding(s));
  }

  lemma FillFFACounts(s: State, player: nat, allowed: LootItem -> bool)
    requires player !in s.playerFFA && Select(s.items, FFAFor(allowed)) != []
    ensures Outstanding(FillFFA(s, player, allowed)) == Outstanding(s) + |Select(s.items, FFAFor(allowed))|
  {
    var ql := Select(s.items, FFAFor(allowed));
    SumGrows(Lengths(s.playerFFA), player, |ql|);
    assert Lengths(s.playerFFA[player := ql]) == Lengths(s.playerFFA)[player := |ql|];
  }

  lemma FillFFABalances(s: State, player: nat, allowed: LootItem -> bool)
    requires Balanced(s) && player !in s.playerFFA
    ensures Balanced(FillFFA(s, player, allowed))
  {
    var ql := Select(s.items, FFAFor(allowed));
    if ql != [] {
      SelectIndexes(s.items, FFAFor(allowed));
      FillFFACounts(s, player, allowed);
      assert Indexes(ql, s.items, ForAll);
      StillTallies(s.unlooted, Outstanding(s), |ql|);
    }
  }

  lemma FillConditionalKeepsLists(s: State, player: nat, allowed: LootItem -> bool)
    requires WellFormed(s)
    ensures WellFormed(FillConditional(s, player, allowed))
  {
    var p := ConditionalFor(allowed);
    SelectIndexes(s.items, p);
    var items' := CountListed(s.items, p);
    forall q <- s.playerFFA.Keys ensures Indexes(s.playerFFA[q], items', ForAll) {
      IndexesStay(s.playerFFA[q], s.items, items', ForAll);
    }
    forall q <- s.playerConditional.Keys ensures Indexes(s.playerConditional[q], items', Conditional) {
      IndexesStay(s.playerConditional[q], s.items, items', Conditional);
    }
    assert Indexes(Select(s.items, p), items', Conditional);
  }

  lemma FillConditionalBalances(s: State, player: nat, allowed: LootItem -> bool)
    requires Balanced(s)
    ensures Balanced(FillConditional(s, player, allowed))
  {
    var p := ConditionalFor(allowed);
    if Select(s.items, p) != [] {
      FillConditionalKeepsLists(s, player, allowed);
      MarkingCounts(s.items, p);
      StillTallies(s.unlooted, Outstanding(s), CountIf(s.items, Uncounted(p)));
    }
  }

  lemma QuestListIndexes(s: State, allowed: LootItem -> bool)
    ensures Indexes(QuestList(s, allowed), s.questItems, QuestFor(allowed))
    ensures Indexes(QuestList(s, allowed), s.questItems, Any)
    ensures |s.items| <= MAX_NR_LOOT_ITEMS ==> |s.items| + |QuestList(s, allowed)| <= MAX_NR_LOOT_ITEMS
  {
    SelectIndexes(s.questItems, QuestFor(allowed));
  }

  lemma NewListCounts(questItems: seq<LootItem>, lists: PlayerLists, player: nat, ql: seq<QuestItem>)
    requires player !in lists && Indexes(ql, questItems, Any)
    requires forall p <- lists.Keys :: Indexes(lists[p], questItems, Any)
    ensures Sum(FFACounts(BlockListed(questItems, ql), lists[player := ql]))
            == Sum(FFACounts(questItems, lists)) + FFACount(questItems, ql)
  {
    var blocked := BlockListed(questItems, ql);
    FFACountsSame(questItems, blocked, lists);
    FFACountSame(questItems, blocked, ql);
    SumGrows(FFACounts(questItems, lists), player, FFACount(questItems, ql));
    FFACountsAdd(blocked, lists, player, ql);
  }

  lemma FFACountsAdd(questItems: seq<LootItem>, lists: PlayerLists, player: nat, ql: seq<QuestItem>)
    requires player !in lists
    ensures FFACounts(questItems, lists[player := ql])
            == FFACounts(questItems, lists)[player := FFACount(questItems, ql)]
  {
  }

  lemma ClaimKeepsLists(s: State, player: nat, ql: seq<QuestItem>)
    requires WellFormed(s) && Indexes(ql, s.questItems, Any)
    ensures WellFormed(Claim(s, player, ql))
  {
    var blocked := BlockListed(s.questItems, ql);
    forall q <- s.playerQuest.Keys ensures Indexes(s.playerQuest[q], blocked, Any) {
      IndexesStay(s.playerQuest[q], s.questItems, blocked, Any);
    }
    assert Indexes(ql, blocked, Any);
  }

  lemma ClaimCounts(s: State, player: nat, ql: seq<QuestItem>)
    requires WellFormed(s) && player !in s.playerQuest && Indexes(ql, s.questItems, Any)
    ensures Outstanding(Claim(s, player, ql)) == Outstanding(s) + QuestCount(s.questItems, ql)
  {
    BlockingClaims(s.questItems, ql);
    NewListCounts(s.questItems, s.playerQuest, player, ql);
    var s' := Claim(s, player, ql);
    assert CountIf(s'.questItems, Claimed) == CountIf(s.questItems, Claimed) + FreshCount(s.questItems, ql);
    assert s'.items == s.items && s'.playerFFA == s.playerFFA;
  }

  lemma ClaimBalances(s: State, player: nat, ql: seq<QuestItem>)
    requires Balanced(s) && player !in s.playerQuest && Indexes(ql, s.questItems, Any)
    ensures Balanced(Claim(s, player, ql))
  {
    ClaimKeepsLists(s, player, ql);
    ClaimCounts(s, player, ql);
    StillTallies(s.unlooted, Outstanding(s), QuestCount(s.questItems, ql));
  }

  lemma FillQuestBalances(s: State, player: nat, allowed: LootItem -> bool)
    requires Balanced(s) && player !in s.playerQuest
    ensures Balanced(FillQuest(s, player, allowed))
  {
    QuestListIndexes(s, allowed);
    ClaimBalances(s, player, QuestList(s, allowed));
  }

  lemma FillBalances(s: State, player: nat, inWorld: bool, allowed: LootItem -> bool)
    requires Balanced(s)
    ensures Balanced(FillNotNormalLootFor(s, player, inWorld, allowed))
  {
    if inWorld {
      if player !in s.playerQuest { FillQuestBalances(s, player, allowed); }
      var s1 := if player in s.playerQuest then s else FillQuest(s, player, allowed);
      if player !in s1.playerFFA { FillFFABalances(s1, player, allowed); }
      var s2 := if player in s1.playerFFA then s1 else FillFFA(s1, player, allowed);
      if player !in s2.playerConditional { FillConditionalBalances(s2, player, allowed); }
    }
  }

  // ---------- the loot window ----------

  /** Adding keeps the window exactly if the new item does not push anybody's quest list out. */
  lemma AddItemFits(s: State, item: LootStoreItem, partyLoot: nat -> bool, count: nat)
    requires WellFormed(s) && FitsWindow(s)
    ensures FitsWindow(AddItem(s, item, partyLoot, count)) <==>
              || item.needsQuest || |s.items| == MAX_NR_LOOT_ITEMS
              || forall p <- s.playerQuest.Keys :: |s.items| + |s.playerQuest[p]| < MAX_NR_LOOT_ITEMS
  {
    var s' := AddItem(s, item, partyLoot, count);
    if FitsWindow(s') && !item.needsQuest && |s.items| < MAX_NR_LOOT_ITEMS {
      forall p <- s.playerQuest.Keys ensures |s.items| + |s.playerQuest[p]| < MAX_NR_LOOT_ITEMS {
        assert p in s'.playerQuest.Keys;
      }
    }
  }

  lemma ClaimFits(s: State, player: nat, ql: seq<QuestItem>)
    requires FitsWindow(s) && |s.items| + |ql| <= MAX_NR_LOOT_ITEMS
    ensures FitsWindow(Claim(s, player, ql))
  {
  }

  lemma FillQuestFits(s: State, player: nat, allowed: LootItem -> bool)
    requires |s.items| <= MAX_NR_LOOT_ITEMS && FitsWindow(s)
    ensures FitsWindow(FillQuest(s, player, allowed))
  {
    QuestListIndexes(s, allowed);
    ClaimFits(s, player, QuestList(s, allowed));
  }

  /** Filling always keeps it, so a loot that is filled after all its items were added fits. */
  lemma FillFits(s: State, player: nat, inWorld: bool, allowed: LootItem -> bool)
    requires |s.items| <= MAX_NR_LOOT_ITEMS && FitsWindow(s)
    ensures FitsWindow(FillNotNormalLootFor(s, player, inWorld, allowed))
  {
    FillQuestFits(s, player, allowed);
    var s1 := if player in s.playerQuest then s else FillQuest(s, player, allowed);
    var s2 := if player in s1.playerFFA then s1 else FillFFA(s1, player, allowed);
    assert s2.items == s1.items && s2.playerQuest == s1.playerQuest;
    var s3 := if player in s2.playerConditional then s2 else FillConditional(s2, player, allowed);
    assert |s3.items| == |s2.items| && s3.playerQuest == s2.playerQuest;
  }

  // ---------- every run ----------

  ghost predicate AddStep(partyLoot: nat -> bool, s: State, s': State) {
    exists item, count :: s' == AddItem(s, item, partyLoot, count)
  }

  ghost predicate FillStep(s: State, s': State) {
    exists player, inWorld, allowed :: s' == FillNotNormalLootFor(s, player, inWorld, allowed)
  }

  ghost predicate Step(partyLoot: nat -> bool, s: State, s': State) { AddStep(partyLoot, s, s') || FillStep(s, s') }

  lemma StepBalances(partyLoot: nat -> bool, s: State, s': State)
    requires Balanced(s) && Step(partyLoot, s, s')
    ensures Balanced(s')
  {
    if AddStep(partyLoot, s, s') {
      var item, count :| s' == AddItem(s, item, partyLoot, count);
      AddItemBalances(s, item, partyLoot, count);
    } else {
      var player, inWorld, allowed :| s' == FillNotNormalLootFor(s, player, inWorld, allowed);
      FillBalances(s, player, inWorld, allowed);
    }
  }

  lemma EmptyBalances()
    ensures Balanced(EMPTY)
  {
    assert Lengths(map[]) == map[] && FFACounts([], map[]) == map[];
  }

  /** After any additions and fills in any order, the counter is what is outstanding, modulo a byte. */
  lemma RunsBalance(partyLoot: nat -> bool, run: seq<State>, j: nat)
    requires j < |run| && run[0] == EMPTY && IsRun(run, (a, b) => Step(partyLoot, a, b))
    ensures Balanced(run[j])
  {
    EmptyBalances();
    forall a, b, c | (Balanced(a) ==> Balanced(b)) && Step(partyLoot, b, c)
      ensures Balanced(a) ==> Balanced(c)
    {
      if Balanced(a) { StepBalances(partyLoot, b, c); }
    }
    Along(run, (a, b) => Step(partyLoot, a, b), (a, b) => Balanced(a) ==> Balanced(b), 0, j);
  }

  ghost predicate BalancedFit(s: State) { Balanced(s) && FitsWindow(s) }

  lemma FillStepFits(s: State, s': State)
    requires BalancedFit(s) && FillStep(s, s')
    ensures BalancedFit(s')
  {
    var player, inWorld, allowed :| s' == FillNotNormalLootFor(s, player, inWorld, allowed);
    FillBalances(s, player, inWorld, allowed);
    FillFits(s, player, inWorld, allowed);
  }

  /** The order of FillLoot: once the lists are being filled and nothing is added any more, the
      loot fits every player's window. */
  lemma FillRunsFit(run: seq<State>, j: nat)
    requires j < |run| && Balanced(run[0]) && run[0].playerQuest == map[] && IsRun(run, (a, b) => FillStep(a, b))
    ensures BalancedFit(run[j])
  {
    forall a, b, c | (BalancedFit(a) ==> BalancedFit(b)) && FillStep(b, c)
      ensures BalancedFit(a) ==> BalancedFit(c)
    {
      if BalancedFit(a) { FillStepFits(b, c); }
    }
    Along(run, (a, b) => FillStep(a, b), (a, b) => BalancedFit(a) ==> BalancedFit(b), 0, j);
  }

  // ---------- when the byte is enough ----------

  lemma Times(a: nat, b: nat, n: nat)
    requires a <= b
    ensures a * n <= b * n && (a + 1) * n == a * n + n
  {
    assert (b - a) * n >= 0;
  }

  lemma {:induction false} SumAtMost(m: map<nat, nat>, most: nat)
    requires forall k <- m.Keys :: m[k] <= most
    ensures Sum(m) <= |m| * most
  {
    if m != map[] {
      var k :| k in m && Sum(m) == m[k] + Sum(m - {k});
      var rest := m - {k};
      SumAtMost(rest, most);
      assert rest.Keys == m.Keys - {k};
      assert |m| == |rest| + 1;
      Times(|rest|, |rest|, most);
    }
  }

  /** A list is no longer than there are items that pass. */
  lemma {:induction false} ListWithinCount(ql: seq<QuestItem>, items: seq<LootItem>, p: LootItem -> bool)
    requires Indexes(ql, items, p)
    ensures |ql| <= CountIf(items, p)
  {
    if items != [] {
      var front := items[..|items| - 1];
      if ql != [] && ql[|ql| - 1].index == |front| {
        ListWithinCount(ql[..|ql| - 1], front, p);
      } else {
        ListWithinCount(ql, front, p);
      }
    }
  }

  lemma LengthsAreFew(s: State)
    requires WellFormed(s)
    ensures Sum(Lengths(s.playerFFA)) <= |s.playerFFA| * CountIf(s.items, ForAll)
  {
    forall p <- s.playerFFA.Keys ensures |s.playerFFA[p]| <= CountIf(s.items, ForAll) {
      ListWithinCount(s.playerFFA[p], s.items, ForAll);
    }
    assert Lengths(s.playerFFA).Keys == s.playerFFA.Keys;
    SumAtMost(Lengths(s.playerFFA), CountIf(s.items, ForAll));
    assert |Lengths(s.playerFFA)| == |s.playerFFA|;
  }

  lemma QuestListsAreShort(s: State)
    requires FitsWindow(s) && |s.items| <= MAX_NR_LOOT_ITEMS
    ensures Sum(Lengths(s.playerQuest)) <= |s.playerQuest| * (MAX_NR_LOOT_ITEMS - |s.items|)
  {
    var m, room := Lengths(s.playerQuest), MAX_NR_LOOT_ITEMS - |s.items|;
    assert m.Keys == s.playerQuest.Keys;
    SumAtMost(m, room);
    assert |m| == |s.playerQuest|;
  }

  /** What is outstanding of the quest items is held in the looters' lists: blocked items for one looter
      once, and those for all in every list. */
  ghost predicate QuestsHeld(s: State) { QuestOutstanding(s) <= Sum(Lengths(s.playerQuest)) }

  lemma {:induction false} QuestCountAtMost(questItems: seq<LootItem>, ql: seq<QuestItem>)
    ensures QuestCount(questItems, ql) <= |ql|
  {
    if ql != [] { QuestCountAtMost(questItems, ql[..|ql| - 1]); }
  }

  lemma LongerLengths(lists: PlayerLists, player: nat, ql: seq<QuestItem>)
    requires player !in lists
    ensures Sum(Lengths(lists[player := ql])) == Sum(Lengths(lists)) + |ql|
  {
    SumGrows(Lengths(lists), player, |ql|);
    assert Lengths(lists[player := ql]) == Lengths(lists)[player := |ql|];
  }

  lemma ClaimHolds(s: State, player: nat, ql: seq<QuestItem>)
    requires WellFormed(s) && player !in s.playerQuest && Indexes(ql, s.questItems, Any) && QuestsHeld(s)
    ensures QuestsHeld(Claim(s, player, ql))
  {
    BlockingClaims(s.questItems, ql);
    NewListCounts(s.questItems, s.playerQuest, player, ql);
    QuestCountAtMost(s.questItems, ql);
    LongerLengths(s.playerQuest, player, ql);
  }

  lemma FillQuestHolds(s: State, player: nat, allowed: LootItem -> bool)
    requires WellFormed(s) && player !in s.playerQuest && QuestsHeld(s)
    ensures QuestsHeld(FillQuest(s, player, allowed))
  {
    QuestListIndexes(s, allowed);
    ClaimHolds(s, player, QuestList(s, allowed));
  }

  predicate SameQuests(s: State, t: State) { t.questItems == s.questItems && t.playerQuest == s.playerQuest }

  lemma OtherFillsKeepQuests(s: State, player: nat, allowed: LootItem -> bool)
    ensures SameQuests(s, FillFFA(s, player, allowed)) && SameQuests(s, FillConditional(s, player, allowed))
  {
  }

  lemma AddItemHolds(s: State, item: LootStoreItem, partyLoot: nat -> bool, count: nat)
    requires WellFormed(s) && QuestsHeld(s)
    ensures QuestsHeld(AddItem(s, item, partyLoot, count))
  {
    AddItemKeepsQuests(s, item, partyLoot, count);
  }

  lemma FillHolds(s: State, player: nat, inWorld: bool, allowed: LootItem -> bool)
    requires WellFormed(s) && QuestsHeld(s)
    ensures QuestsHeld(FillNotNormalLootFor(s, player, inWorld, allowed))
  {
    if inWorld {
      if player !in s.playerQuest { FillQuestHolds(s, player, allowed); }
      var s1 := if player in s.playerQuest then s else FillQuest(s, player, allowed);
      OtherFillsKeepQuests(s1, player, allowed);
      var s2 := if player in s1.playerFFA then s1 else FillFFA(s1, player, allowed);
      OtherFillsKeepQuests(s2, player, allowed);
      var s3 := if player in s2.playerConditional then s2 else FillConditional(s2, player, allowed);
      assert QuestsHeld(s1) && SameQuests(s1, s3);
      assert FillNotNormalLootFor(s, player, inWorld, allowed) == s3;
    }
  }

  ghost predicate BalancedHeld(s: State) { Balanced(s) && QuestsHeld(s) }

  lemma StepHolds(partyLoot: nat -> bool, s: State, s': State)
    requires BalancedHeld(s) && Step(partyLoot, s, s')
    ensures BalancedHeld(s')
  {
    StepBalances(partyLoot, s, s');
    if AddStep(partyLoot, s, s') {
      var item, count :| s' == AddItem(s, item, partyLoot, count);
      AddItemHolds(s, item, partyLoot, count);
    } else {
      var player, inWorld, allowed :| s' == FillNotNormalLootFor(s, player, inWorld, allowed);
      FillHolds(s, player, inWorld, allowed);
    }
  }

  lemma RunsHold(partyLoot: nat -> bool, run: seq<State>, j: nat)
    requires j < |run| && run[0] == EMPTY && IsRun(run, (a, b) => Step(partyLoot, a, b))
    ensures BalancedHeld(run[j])
  {
    EmptyBalances();
    assert Lengths(map[]) == map[] && FFACounts([], map[]) == map[];
    forall a, b, c | (BalancedHeld(a) ==> BalancedHeld(b)) && Step(partyLoot, b, c)
      ensures BalancedHeld(a) ==> BalancedHeld(c)
    {
      if BalancedHeld(a) { StepHolds(partyLoot, b, c); }
    }
    Along(run, (a, b) => Step(partyLoot, a, b), (a, b) => BalancedHeld(a) ==> BalancedHeld(b), 0, j);
  }

  /** The players with a free-for-all or a quest list. */
  function Looters(s: State): set<nat> { s.playerFFA.Keys + s.playerQuest.Keys }

  lemma LootersAreCounted(s: State)
    ensures |s.playerFFA| <= |Looters(s)| && |s.playerQuest| <= |Looters(s)|
  {
    SubsetFits(s.playerFFA.Keys, Looters(s));
    SubsetFits(s.playerQuest.Keys, Looters(s));
  }

  /** Items for one looter count once, those for all at most fifteen times. */
  lemma ItemsBound(s: State)
    requires WellFormed(s) && |s.playerFFA| <= 15
    ensures CountIf(s.items, Plain) + CountIf(s.items, Counted) + Sum(Lengths(s.playerFFA)) <= 15 * |s.items|
  {
    LengthsAreFew(s);
    CountsAreDisjoint(s.items);
    Times(|s.playerFFA|, 15, CountIf(s.items, ForAll));
  }

  lemma QuestBound(s: State)
    requires FitsWindow(s) && QuestsHeld(s) && |s.items| <= MAX_NR_LOOT_ITEMS && |s.playerQuest| <= 15
    ensures QuestOutstanding(s) <= 15 * (16 - |s.items|)
  {
    QuestListsAreShort(s);
    Times(|s.playerQuest|, 15, 16 - |s.items|);
  }

  lemma FifteenLootersBound(s: State)
    requires WellFormed(s) && FitsWindow(s) && QuestsHeld(s) && |Looters(s)| <= 15
    ensures Outstanding(s) <= 240
  {
    LootersAreCounted(s);
    ItemsBound(s);
    QuestBound(s);
  }

  /** In every run, while the lists fit the window (which FillLoot's order ensures): up to fifteen looters the
      byte does not wrap, the counter is exact, and zero means that nothing is left. */
  lemma FifteenLootersAreExact(partyLoot: nat -> bool, run: seq<State>, j: nat)
    requires j < |run| && run[0] == EMPTY && IsRun(run, (a, b) => Step(partyLoot, a, b))
    requires FitsWindow(run[j]) && |Looters(run[j])| <= 15
    ensures run[j].unlooted == Outstanding(run[j]) <= 240
  {
    RunsHold(partyLoot, run, j);
    FifteenLootersBound(run[j]);
    SmallByte(Outstanding(run[j]));
  }

  lemma SmallByte(n: nat)
    requires n < 256
    ensures Byte(n) == n
  {
  }

  lemma {:induction false} CountsAreDisjoint(items: seq<LootItem>)
    requires CountedOnce(items)
    ensures CountIf(items, Plain) + CountIf(items, Counted) + CountIf(items, ForAll) <= |items|
  {
    if items != [] { CountsAreDisjoint(items[..|items| - 1]); }
  }

  lemma {:induction false} SelectNothing(items: seq<LootItem>, p: LootItem -> bool)
    requires forall i :: 0 <= i < |items| ==> !p(items[i])
    ensures Select(items, p) == []
  {
    if items != [] { SelectNothing(items[..|items| - 1], p); }
  }

  lemma {:induction false} SelectEverything(items: seq<LootItem>, p: LootItem -> bool)
    requires forall i :: 0 <= i < |items| ==> p(items[i])
    ensures |Select(items, p)| == |items|
  {
    if items != [] { SelectEverything(items[..|items| - 1], p); }
  }

  /** Sixteen unlooted free-for-all items that everybody may have, no other list. */
  ghost predicate AllForAll(s: State, allowed: LootItem -> bool) {
    && |s.items| == 16 && s.playerQuest == s.playerConditional == map[]
    && forall i :: 0 <= i < 16 ==> !s.items[i].isLooted && s.items[i].freeForAll && allowed(s.items[i])
  }

  lemma OneMoreLooter(s: State, player: nat, allowed: LootItem -> bool)
    requires AllForAll(s, allowed) && player !in s.playerFFA
    ensures var t := FillNotNormalLootFor(s, player, true, allowed);
            && AllForAll(t, allowed) && t.playerFFA.Keys == s.playerFFA.Keys + {player}
            && Sum(Lengths(t.playerFFA)) == Sum(Lengths(s.playerFFA)) + 16 && t.unlooted == Raise(s.unlooted, 16)
  {
    SelectEverything(s.items, FFAFor(allowed));
    SelectNothing(s.items, ConditionalFor(allowed));
    var ql := Select(s.items, FFAFor(allowed));
    LongerLengths(s.playerFFA, player, ql);
    assert FillQuest(s, player, allowed) == s;
    assert FillNotNormalLootFor(s, player, true, allowed) == FillFFA(s, player, allowed);
  }

  /** k looters were served, each with all sixteen items. */
  ghost predicate Served(s: State, k: nat, allowed: LootItem -> bool) {
    && AllForAll(s, allowed) && (forall p <- s.playerFFA.Keys :: p <= k) && |s.playerFFA.Keys| == k
    && Sum(Lengths(s.playerFFA)) == 16 * k && Tallies(s.unlooted, Sum(Lengths(s.playerFFA)))
  }

  lemma OneMoreKey(keys: set<nat>, k: nat)
    requires k !in keys
    ensures |keys + {k}| == |keys| + 1
  {
  }

  lemma ServedAfter(s: State, t: State, k: nat, allowed: LootItem -> bool)
    requires k > 0 && Served(s, k - 1, allowed) && AllForAll(t, allowed) && t.playerFFA.Keys == s.playerFFA.Keys + {k}
    requires Sum(Lengths(t.playerFFA)) == Sum(Lengths(s.playerFFA)) + 16 && t.unlooted == Raise(s.unlooted, 16)
    ensures Served(t, k, allowed)
  {
    StillTallies(s.unlooted, Sum(Lengths(s.playerFFA)), 16);
    OneMoreKey(s.playerFFA.Keys, k);
  }

  lemma ServeNext(s: State, k: nat, allowed: LootItem -> bool)
    requires k > 0 && Served(s, k - 1, allowed)
    ensures Served(FillNotNormalLootFor(s, k, true, allowed), k, allowed)
  {
    OneMoreLooter(s, k, allowed);
    ServedAfter(s, FillNotNormalLootFor(s, k, true, allowed), k, allowed);
  }

  lemma {:induction false} AddingRun(n: nat, item: LootStoreItem, partyLoot: nat -> bool) returns (run: seq<State>)
    requires n <= 16 && !item.needsQuest && partyLoot(item.itemid)
    ensures run != [] && run[0] == EMPTY && IsRun(run, (a, b) => Step(partyLoot, a, b))
    ensures var s := run[|run| - 1];
            s == EMPTY.(items := s.items) && |s.items| == n && forall x <- s.items :: x == NewItem(item, partyLoot, 1)
  {
    if n == 0 {
      run := [EMPTY];
    } else {
      run := AddingRun(n - 1, item, partyLoot);
      var s := run[|run| - 1];
      var t := AddItem(s, item, partyLoot, 1);
      assert AddStep(partyLoot, s, t);
      RunExtends(run, (a, b) => Step(partyLoot, a, b), t);
      run := run + [t];
    }
  }

  lemma NobodyServed(s: State, item: LootStoreItem, partyLoot: nat -> bool, allowed: LootItem -> bool)
    requires partyLoot(item.itemid) && allowed(NewItem(item, partyLoot, 1))
    requires s == EMPTY.(items := s.items) && |s.items| == 16 && forall x <- s.items :: x == NewItem(item, partyLoot, 1)
    ensures Served(s, 0, allowed)
  {
    assert Lengths(map[]) == map[];
    assert forall i :: 0 <= i < 16 ==> s.items[i] in s.items;
  }

  lemma {:induction false} ServingRun(k: nat, item: LootStoreItem, partyLoot: nat -> bool, allowed: LootItem -> bool)
    returns (run: seq<State>)
    requires !item.needsQuest && partyLoot(item.itemid) && allowed(NewItem(item, partyLoot, 1))
    ensures run != [] && run[0] == EMPTY && IsRun(run, (a, b) => Step(partyLoot, a, b))
    ensures Served(run[|run| - 1], k, allowed)
  {
    if k == 0 {
      run := AddingRun(16, item, partyLoot);
      NobodyServed(run[|run| - 1], item, partyLoot, allowed);
    } else {
      run := ServingRun(k - 1, item, partyLoot, allowed);
      var s := run[|run| - 1];
      var t := FillNotNormalLootFor(s, k, true, allowed);
      ServeNext(s, k, allowed);
      assert FillStep(s, t);
      RunExtends(run, (a, b) => Step(partyLoot, a, b), t);
      run := run + [t];
    }
  }

  /** Nothing but the looters' entries is outstanding. */
  lemma OnlyEntriesOutstanding(s: State, k: nat, allowed: LootItem -> bool)
    requires Served(s, k, allowed) && BalancedHeld(s)
    ensures Outstanding(s) == 16 * k && s.unlooted == 16 * k % 256
  {
    SelectIndexes(s.items, ForAll);
    SelectEverything(s.items, ForAll);
    CountsAreDisjoint(s.items);
    assert Lengths(map[]) == map[];
    ByteIsModulo(16 * k);
  }

  /** Fifteen is the most: sixteen additions of one item for everybody, then as many looters as one likes, and
      the counter is what is outstanding modulo 256. From the sixteenth looter on that is wrong; after the
      sixteenth it is zero, and 256 entries are outstanding. */
  lemma SixteenLootersWrap(k: nat, item: LootStoreItem, partyLoot: nat -> bool, allowed: LootItem -> bool)
    returns (run: seq<State>)
    requires k >= 16 && !item.needsQuest && partyLoot(item.itemid) && allowed(NewItem(item, partyLoot, 1))
    ensures run != [] && run[0] == EMPTY && IsRun(run, (a, b) => Step(partyLoot, a, b))
    ensures var s := run[|run| - 1];
            && FitsWindow(s) && |Looters(s)| == k
            && s.unlooted == 16 * k % 256 && s.unlooted < Outstanding(s) == 16 * k
  {
    run := ServingRun(k, item, partyLoot, allowed);
    var s := run[|run| - 1];
    assert Looters(s) == s.playerFFA.Keys;
    RunsHold(partyLoot, run, |run| - 1);
    OnlyEntriesOutstanding(s, k, allowed);
  }

  // ---------- a late item ----------

  /** A quest item, and n other items behind it. */
  lemma {:induction false} QuestAndItems(n: nat, quest: LootStoreItem, item: LootStoreItem, partyLoot: nat -> bool)
    returns (run: seq<State>)
    requires n <= 16 && quest.needsQuest && !item.needsQuest
    ensures run != [] && run[0] == EMPTY && IsRun(run, (a, b) => Step(partyLoot, a, b))
    ensures var s := run[|run| - 1];
            |s.items| == n && s.questItems == [NewItem(quest, partyLoot, 1)] && s.playerQuest == map[]
  {
    var last := EMPTY;
    var next := quest;
    if n == 0 {
      run := [EMPTY];
    } else {
      run := QuestAndItems(n - 1, quest, item, partyLoot);
      last, next := run[|run| - 1], item;
    }
    var t := AddItem(last, next, partyLoot, 1);
    assert AddStep(partyLoot, last, t);
    RunExtends(run, (a, b) => Step(partyLoot, a, b), t);
    run := run + [t];
  }

  /** With room for one quest item the player gets the only one there is. */
  lemma LastRoomIsTaken(s: State, player: nat, allowed: LootItem -> bool)
    requires |s.items| == 15 && |s.questItems| == 1 && s.playerQuest == map[]
    requires !s.questItems[0].isLooted && allowed(s.questItems[0])
    ensures var t := FillNotNormalLootFor(s, player, true, allowed);
            |t.items| == 15 && player in t.playerQuest && |t.playerQuest[player]| == 1
  {
    var s1 := FillQuest(s, player, allowed);
    assert |s1.items| == 15 && player in s1.playerQuest && |s1.playerQuest[player]| == 1 by {
      SelectEverything(s.questItems, QuestFor(allowed));
    }
    OtherFillsKeepQuests(s1, player, allowed);
    var s2 := if player in s1.playerFFA then s1 else FillFFA(s1, player, allowed);
    OtherFillsKeepQuests(s2, player, allowed);
    var s3 := if player in s2.playerConditional then s2 else FillConditional(s2, player, allowed);
    assert SameQuests(s1, s2) && SameQuests(s2, s3) && |s3.items| == |s2.items| == |s1.items|;
    assert FillNotNormalLootFor(s, player, true, allowed) == s3;
  }

  /** A quest item, fifteen others, a looter who gets the quest item, and one item more: the looter's items and
      quest entries take seventeen slots. */
  lemma LateItemsOverflowTheWindow(quest: LootStoreItem, item: LootStoreItem, partyLoot: nat -> bool, player: nat,
                                   allowed: LootItem -> bool) returns (run: seq<State>)
    requires quest.needsQuest && !item.needsQuest && allowed(NewItem(quest, partyLoot, 1))
    ensures |run| > 1 && run[0] == EMPTY && IsRun(run, (a, b) => Step(partyLoot, a, b))
    ensures var s, t := run[|run| - 2], run[|run| - 1];
            && t == AddItem(s, item, partyLoot, 1) && FitsWindow(s) && !FitsWindow(t)
            && player in t.playerQuest && |t.items| + |t.playerQuest[player]| == 17
  {
    run := QuestAndItems(15, quest, item, partyLoot);
    var a := run[|run| - 1];
    var s := FillNotNormalLootFor(a, player, true, allowed);
    LastRoomIsTaken(a, player, allowed);
    FillFits(a, player, true, allowed);
    assert FillStep(a, s);
    RunExtends(run, (a, b) => Step(partyLoot, a, b), s);
    var t := AddItem(s, item, partyLoot, 1);
    assert AddStep(partyLoot, s, t);
    RunExtends(run + [s], (a, b) => Step(partyLoot, a, b), t);
    run := run + [s] + [t];
  }

  // ---------- the loot object ----------

  class LootObject {
    var items: seq<LootItem>
    var questItems: seq<LootItem>
    var unlootedCount: Uint8
    var playerQuest: PlayerLists
    var playerFFA: PlayerLists
    var playerConditional: PlayerLists

    ghost function Fields(): State
      reads this
    {
      State(items, questItems, unlootedCount, playerQuest, playerFFA, playerConditional)
    }

    constructor ()
      ensures Fields() == EMPTY
    {
      items, questItems, unlootedCount, playerQuest, playerFFA, playerConditional := [], [], 0, map[], map[], map[];
    }

    method Add(item: LootStoreItem, partyLoot: nat -> bool, count: nat)
      modifies this
      ensures Fields() == AddItem(old(Fields()), item, partyLoot, count)
    {
      if item.needsQuest {
        if |questItems| < MAX_NR_QUEST_ITEMS {
          questItems := questItems + [NewItem(item, partyLoot, count)];
        }
      } else if |items| < MAX_NR_LOOT_ITEMS {
        items := items + [NewItem(item, partyLoot, count)];
        if item.conditionId == 0 {
          if !partyLoot(item.itemid) {
            unlootedCount := Raise(unlootedCount, 1);
          }
        }
      }
    }

    method FillFFALoot(player: nat, allowed: LootItem -> bool)
      modifies this`playerFFA, this`unlootedCount
      ensures Fields() == FillFFA(old(Fields()), player, allowed)
    {
      var ql: seq<QuestItem> := [];
      var i := 0;
      RaiseNext(unlootedCount, 0);
      while i < |items|
        invariant 0 <= i <= |items| && playerFFA == old(playerFFA)
        invariant ql == Select(items[..i], FFAFor(allowed))
        invariant unlootedCount == Raise(old(unlootedCount), |ql|)
      {
        assert items[..i + 1][..i] == items[..i];
        if !items[i].isLooted && items[i].freeForAll && allowed(items[i]) {
          RaiseNext(old(unlootedCount), |ql|);
          ql := ql + [QuestItem(i, false)];
          unlootedCount := Raise(unlootedCount, 1);
        }
        i := i + 1;
      }
      assert items[..i] == items;
      if ql != [] {
        playerFFA := playerFFA[player := ql];
      }
    }

    method FillConditionalLoot(player: nat, allowed: LootItem -> bool)
      modifies this`items, this`playerConditional, this`unlootedCount
      ensures Fields() == FillConditional(old(Fields()), player, allowed)
    {
      ghost var p := ConditionalFor(allowed);
      ghost var before := items;
      ghost var start := unlootedCount;
      var ql: seq<QuestItem> := [];
      var i := 0;
      MarkedStart(before, p);
      RaiseNext(start, 0);
      while i < |items|
        invariant 0 <= i <= |items| == |before| && playerConditional == old(playerConditional)
        invariant Marking(before, start, items, unlootedCount, ql, i, p)
      {
        MarkingNext(before, start, items, unlootedCount, ql, i, p);
        var item := items[i];
        if !item.isLooted && !item.freeForAll && item.conditionId != 0 && allowed(item) {
          ql := ql + [QuestItem(i, false)];
          if !item.isCounted {
            unlootedCount := Raise(unlootedCount, 1);
            items := items[i := item.(isCounted := true)];
          }
        }
        i := i + 1;
      }
      assert before[..i] == before;
      MarkedEnd(before, items, p);
      NoneUncounted(before, ql, i, p);
      if ql != [] {
        playerConditional := playerConditional[player := ql];
      }
    }

    /** Claims quest items in order until the player's slots are used up. */
    method FillQuestLoot(player: nat, allowed: LootItem -> bool)
      requires |items| <= MAX_NR_LOOT_ITEMS
      modifies this`questItems, this`playerQuest, this`unlootedCount
      ensures Fields() == FillQuest(old(Fields()), player, allowed)
    {
      if |items| == MAX_NR_LOOT_ITEMS {
        return;
      }
      ghost var p := QuestFor(allowed);
      ghost var before := questItems;
      ghost var start := unlootedCount;
      var ql: seq<QuestItem> := [];
      var i := 0;
      BlockNothing(before);
      RaiseNext(start, 0);
      while i < |questItems|
        invariant 0 <= i <= |questItems| == |before| && playerQuest == old(playerQuest)
        invariant Claiming(before, start, questItems, unlootedCount, ql, i, p)
        invariant |items| + |ql| < MAX_NR_LOOT_ITEMS
      {
        ClaimNext(before, start, questItems, unlootedCount, ql, i, p);
        var item := questItems[i];
        if !item.isLooted && allowed(item) {
          ql := ql + [QuestItem(i, false)];
          if item.freeForAll || !item.isBlocked {
            unlootedCount := Raise(unlootedCount, 1);
          }
          questItems := questItems[i := item.(isBlocked := true)];
          assert Claiming(before, start, questItems, unlootedCount, ql, i + 1, p);
          if |items| + |ql| == MAX_NR_LOOT_ITEMS {
            i := i + 1;
            break;
          }
        }
        i := i + 1;
      }
      ClaimsEnd(old(Fields()), allowed, ql, i);
      if ql != [] {
        playerQuest := playerQuest[player := ql];
        assert Fields() == Claim(old(Fields()), player, ql);
      }
    }

    method FillFor(player: nat, inWorld: bool, allowed: LootItem -> bool)
      requires |items| <= MAX_NR_LOOT_ITEMS
      modifies this
      ensures Fields() == FillNotNormalLootFor(old(Fields()), player, inWorld, allowed)
    {
      if !inWorld {
        return;
      }
      if player !in playerQuest {
        FillQuestLoot(player, allowed);
      }
      if player !in playerFFA {
        FillFFALoot(player, allowed);
      }
      if player !in playerConditional {
        FillConditionalLoot(player, allowed);
      }
    }
  }

  /** The quest loop before round i: what was collected is blocked and counted. */
  predicate Claiming(before: seq<LootItem>, start: Uint8, questItems: seq<LootItem>, unlooted: Uint8,
                     ql: seq<QuestItem>, i: nat, p: LootItem -> bool)
  {
    && i <= |before| && ql == Select(before[..i], p)
    && questItems == BlockListed(before, ql) && unlooted == Raise(start, QuestCount(before, ql))
  }

  lemma BlockNext(before: seq<LootItem>, ql: seq<QuestItem>, i: nat, p: LootItem -> bool)
    requires i < |before| && ql == Select(before[..i], p)
    ensures BlockListed(before, ql)[i] == before[i]
    ensures Select(before[..i + 1], p) == if p(before[i]) then ql + [QuestItem(i, false)] else ql
    ensures var longer := ql + [QuestItem(i, false)];
            && BlockListed(before, longer) == BlockListed(before, ql)[i := before[i].(isBlocked := true)]
            && QuestCount(before, longer)
               == QuestCount(before, ql) + (if before[i].freeForAll || !before[i].isBlocked then 1 else 0)
  {
    SelectIndexes(before[..i], p);
    assert !Holds(ql, i);
    assert before[..i + 1][..i] == before[..i];
    var longer := ql + [QuestItem(i, false)];
    assert longer[..|ql|] == ql;
    BlockLast(before, longer);
  }

  /** What one round of the quest loop sees and does. */
  lemma ClaimNext(before: seq<LootItem>, start: Uint8, questItems: seq<LootItem>, unlooted: Uint8,
                  ql: seq<QuestItem>, i: nat, p: LootItem -> bool)
    requires i < |before| && Claiming(before, start, questItems, unlooted, ql, i, p)
    ensures |questItems| == |before| && questItems[i] == before[i]
    ensures if p(before[i])
            then Claiming(before, start, questItems[i := before[i].(isBlocked := true)],
                          if before[i].freeForAll || !before[i].isBlocked then Raise(unlooted, 1) else unlooted,
                          ql + [QuestItem(i, false)], i + 1, p)
            else Claiming(before, start, questItems, unlooted, ql, i + 1, p)
  {
    BlockNext(before, ql, i, p);
    RaiseNext(start, QuestCount(before, ql));
  }

  /** The loop ends with the player's quest list, whether it ran through or ran out of room. */
  lemma ClaimsEnd(s: State, allowed: LootItem -> bool, ql: seq<QuestItem>, i: nat)
    requires i <= |s.questItems| && ql == Select(s.questItems[..i], QuestFor(allowed))
    requires |s.items| + |ql| <= MAX_NR_LOOT_ITEMS && (i == |s.questItems| || |s.items| + |ql| == MAX_NR_LOOT_ITEMS)
    ensures ql == QuestList(s, allowed)
    ensures |s.items| != MAX_NR_LOOT_ITEMS ==> forall player ::
      FillQuest(s, player, allowed) == if ql == [] then s else Claim(s, player, ql)
  {
    SelectPrefix(s.questItems, QuestFor(allowed), i);
    assert s.questItems[..|s.questItems|] == s.questItems;
  }

  lemma BlockNothing(questItems: seq<LootItem>)
    ensures BlockListed(questItems, []) == questItems
  {
  }

  lemma {:induction false} SelectPrefix(items: seq<LootItem>, p: LootItem -> bool, n: nat)
    requires n <= |items|
    ensures Select(items[..n], p) <= Select(items, p)
  {
    if n < |items| {
      SelectPrefix(items[..|items| - 1], p, n);
      assert items[..|items| - 1][..n] == items[..n];
    } else {
      assert items[..n] == items;
    }
  }

  /** The first n items are marked, the rest is as before. */
  predicate Marked(before: seq<LootItem>, items: seq<LootItem>, n: nat, p: LootItem -> bool) {
    && |items| == |before|
    && forall i :: 0 <= i < |items| ==>
         items[i] == if i < n && p(before[i]) then before[i].(isCounted := true) else before[i]
  }

  lemma MarkedStart(items: seq<LootItem>, p: LootItem -> bool)
    ensures Marked(items, items, 0, p)
  {
  }

  lemma MarkedNext(before: seq<LootItem>, items: seq<LootItem>, n: nat, p: LootItem -> bool)
    requires Marked(before, items, n, p) && n < |items|
    ensures items[n] == before[n]
    ensures Marked(before, if p(before[n]) then items[n := before[n].(isCounted := true)] else items, n + 1, p)
    ensures before[n].isCounted ==> before[n].(isCounted := true) == before[n] && items[n := before[n]] == items
  {
  }

  /** The conditional loop before round i: what was collected is marked and, if it was not yet, counted. */
  predicate Marking(before: seq<LootItem>, start: Uint8, items: seq<LootItem>, unlooted: Uint8,
                    ql: seq<QuestItem>, i: nat, p: LootItem -> bool)
  {
    && i <= |before| && Marked(before, items, i, p) && ql == Select(before[..i], p)
    && unlooted == Raise(start, CountIf(before[..i], Uncounted(p)))
  }

  /** What one round of it sees and does. */
  lemma MarkingNext(before: seq<LootItem>, start: Uint8, items: seq<LootItem>, unlooted: Uint8,
                    ql: seq<QuestItem>, i: nat, p: LootItem -> bool)
    requires i < |before| && Marking(before, start, items, unlooted, ql, i, p)
    ensures |items| == |before| && items[i] == before[i]
    ensures var item := before[i];
            if !p(item) then Marking(before, start, items, unlooted, ql, i + 1, p)
            else if item.isCounted then Marking(before, start, items, unlooted, ql + [QuestItem(i, false)], i + 1, p)
            else Marking(before, start, items[i := item.(isCounted := true)], Raise(unlooted, 1),
                         ql + [QuestItem(i, false)], i + 1, p)
  {
    MarkedNext(before, items, i, p);
    RaiseNext(start, CountIf(before[..i], Uncounted(p)));
    assert before[..i + 1][..i] == before[..i];
  }

  lemma NoneUncounted(before: seq<LootItem>, ql: seq<QuestItem>, i: nat, p: LootItem -> bool)
    requires i <= |before| && ql == Select(before[..i], p)
    ensures ql == [] ==> CountIf(before[..i], Uncounted(p)) == 0
  {
    if ql == [] {
      forall k | 0 <= k < i
        ensures !p(before[k])
      {
        SelectComplete(before[..i], p, k);
        assert before[..i][k] == before[k];
      }
      CountNone(before[..i], Uncounted(p));
    }
  }

  lemma {:induction false} CountNone<T>(s: seq<T>, p: T -> bool)
    requires forall k :: 0 <= k < |s| ==> !p(s[k])
    ensures CountIf(s, p) == 0
  {
    if s != [] { CountNone(s[..|s| - 1], p); }
  }

  lemma MarkedEnd(before: seq<LootItem>, items: seq<LootItem>, p: LootItem -> bool)
    requires Marked(before, items, |items|, p)
    ensures items == CountListed(before, p)
    ensures Select(before, p) == [] ==> items == before
  {
    if Select(before, p) == [] {
      forall i | 0 <= i < |before| ensures !p(before[i]) {
        SelectComplete(before, p, i);
      }
    }
  }
}
