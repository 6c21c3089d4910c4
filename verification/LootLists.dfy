/** What a looter is given: the contents of the lists that Loot::FillNotNormalLootFor makes, and what a filling
    leaves alone. */
module LootLists {
  import opened Basics
  import opened Loot

  /** The loot item is the template entry, without any mark. */
  predicate IsOf(x: LootItem, item: LootStoreItem, partyLoot: nat -> bool, count: nat) {
    && x.itemid == item.itemid && x.conditionId == item.conditionId && x.count == count
    && x.needsQuest == item.needsQuest && x.freeForAll == partyLoot(item.itemid)
    && !x.isLooted && !x.isBlocked && !x.isCounted
  }

  /** One more item at the end, if there is room. */
  predicate Appended(before: seq<LootItem>, after: seq<LootItem>, most: nat, item: LootStoreItem,
                     partyLoot: nat -> bool, count: nat)
  {
    if |before| >= most then after == before
    else |after| == |before| + 1 && after[..|before|] == before && IsOf(after[|before|], item, partyLoot, count)
  }

  /** Adding an entry appends it to the list it belongs to, and leaves the other one alone. */
  lemma AddedItemIsEntry(s: State, item: LootStoreItem, partyLoot: nat -> bool, count: nat)
    ensures var t := AddItem(s, item, partyLoot, count);
            if item.needsQuest then
              Appended(s.questItems, t.questItems, MAX_NR_QUEST_ITEMS, item, partyLoot, count) && t.items == s.items
            else
              Appended(s.items, t.items, MAX_NR_LOOT_ITEMS, item, partyLoot, count) && t.questItems == s.questItems
  {
  }

  /** The items of the first n that pass. */
  function Passed(items: seq<LootItem>, n: nat, p: LootItem -> bool): nat
    requires n <= |items|
  {
    if n == 0 then 0 else Passed(items, n - 1, p) + if p(items[n - 1]) then 1 else 0
  }

  lemma {:induction false} PassedInFront(items: seq<LootItem>, n: nat, p: LootItem -> bool)
    requires n < |items|
    ensures Passed(items[..|items| - 1], n, p) == Passed(items, n, p)
  {
    if n > 0 { PassedInFront(items, n - 1, p); }
  }

  lemma {:induction false} SelectLength(items: seq<LootItem>, p: LootItem -> bool)
    ensures |Select(items, p)| == Passed(items, |items|, p)
  {
    if items != [] {
      SelectLength(items[..|items| - 1], p);
      PassedInFront(items, |items| - 1, p);
    }
  }

  /** Cut to the given room, a selection holds the items that pass and have fewer than that many in front. */
  lemma {:induction false} SelectFirst(items: seq<LootItem>, p: LootItem -> bool, room: nat, i: nat)
    requires i < |items|
    ensures var all := Select(items, p);
            Holds(if room < |all| then all[..room] else all, i) <==> p(items[i]) && Passed(items, i, p) < room
  {
    var last := |items| - 1;
    var before, all := Select(items[..last], p), Select(items, p);
    SelectLength(items[..last], p);
    PassedInFront(items, last, p);
    if i < last {
      SelectFirst(items[..last], p, room, i);
      PassedInFront(items, i, p);
      if room < |all| { assert all[..room] == before[..room]; }
      HoldsMore(before, QuestItem(last, false), i);
    } else {
      SelectIndexes(items[..last], p);
      SelectIndexes(items, p);
      if p(items[last]) {
        assert all == before + [QuestItem(last, false)];
        HoldsMore(before, QuestItem(last, false), last);
        if room < |all| { assert all[..room] == before[..room]; }
      }
    }
  }

  lemma SelectedList(items: seq<LootItem>, p: LootItem -> bool)
    ensures forall i :: 0 <= i < |items| ==> (Holds(Select(items, p), i) <==> p(items[i]))
  {
    forall i | 0 <= i < |items|
      ensures Holds(Select(items, p), i) <==> p(items[i])
    {
      SelectComplete(items, p, i);
    }
  }

  /** Which items a looter may take over the looter's own lists. */
  predicate TakesForAll(x: LootItem, allowed: LootItem -> bool) { x.freeForAll && !x.isLooted && allowed(x) }

  predicate TakesConditional(x: LootItem, allowed: LootItem -> bool) {
    x.conditionId != 0 && !x.freeForAll && !x.isLooted && allowed(x)
  }

  predicate TakesQuest(x: LootItem, allowed: LootItem -> bool) { !x.isLooted && allowed(x) }

  function QuestTaker(allowed: LootItem -> bool): LootItem -> bool { (x: LootItem) => TakesQuest(x, allowed) }

  lemma {:induction false} PassedSame(items: seq<LootItem>, n: nat, p: LootItem -> bool, q: LootItem -> bool)
    requires n <= |items| && forall x :: p(x) == q(x)
    ensures Passed(items, n, p) == Passed(items, n, q)
  {
    if n > 0 { PassedSame(items, n - 1, p, q); }
  }

  lemma QuestListHolds(s: State, allowed: LootItem -> bool)
    requires |s.items| <= MAX_NR_LOOT_ITEMS
    ensures forall i :: 0 <= i < |s.questItems| ==>
              (Holds(QuestList(s, allowed), i) <==>
                 && TakesQuest(s.questItems[i], allowed)
                 && |s.items| + Passed(s.questItems, i, QuestTaker(allowed)) < MAX_NR_LOOT_ITEMS)
  {
    forall i | 0 <= i < |s.questItems|
      ensures Holds(QuestList(s, allowed), i) <==>
                && TakesQuest(s.questItems[i], allowed)
                && |s.items| + Passed(s.questItems, i, QuestTaker(allowed)) < MAX_NR_LOOT_ITEMS
    {
      SelectFirst(s.questItems, QuestFor(allowed), MAX_NR_LOOT_ITEMS - |s.items|, i);
      PassedSame(s.questItems, i, QuestFor(allowed), QuestTaker(allowed));
    }
  }

  // ---------- a filling for a new looter ----------

  /** The player's quest list afterwards: what it may take, as far as there are slots behind the items; those items
      are blocked. */
  ghost predicate QuestListMade(s: State, t: State, player: nat, allowed: LootItem -> bool) {
    && |t.questItems| == |s.questItems|
    && forall i :: 0 <= i < |s.questItems| ==>
         && (Holds(ListOf(t.playerQuest, player), i) <==>
               && TakesQuest(s.questItems[i], allowed)
               && |s.items| + Passed(s.questItems, i, QuestTaker(allowed)) < MAX_NR_LOOT_ITEMS)
         && t.questItems[i] == s.questItems[i].(
              isBlocked := s.questItems[i].isBlocked || Holds(ListOf(t.playerQuest, player), i))
  }

  /** The player's list of items that everybody gets. */
  ghost predicate ForAllListMade(s: State, t: State, player: nat, allowed: LootItem -> bool) {
    forall i :: 0 <= i < |s.items| ==>
      (Holds(ListOf(t.playerFFA, player), i) <==> TakesForAll(s.items[i], allowed))
  }

  /** The player's list of conditional items; those items are counted. */
  ghost predicate ConditionalListMade(s: State, t: State, player: nat, allowed: LootItem -> bool) {
    && |t.items| == |s.items|
    && forall i :: 0 <= i < |s.items| ==>
         && (Holds(ListOf(t.playerConditional, player), i) <==> TakesConditional(s.items[i], allowed))
         && t.items[i] == s.items[i].(
              isCounted := s.items[i].isCounted || Holds(ListOf(t.playerConditional, player), i))
  }

  ghost predicate OthersKeep(a: PlayerLists, b: PlayerLists, player: nat) {
    forall p :: p != player ==> ListOf(b, p) == ListOf(a, p)
  }

  lemma FillQuestMakes(s: State, player: nat, allowed: LootItem -> bool)
    requires |s.items| <= MAX_NR_LOOT_ITEMS && player !in s.playerQuest
    ensures var t := FillQuest(s, player, allowed);
            && QuestListMade(s, t, player, allowed) && OthersKeep(s.playerQuest, t.playerQuest, player)
            && t.items == s.items && t.playerFFA == s.playerFFA && t.playerConditional == s.playerConditional
  {
    QuestListHolds(s, allowed);
    QuestListIndexes(s, allowed);
    var t := FillQuest(s, player, allowed);
    assert ListOf(t.playerQuest, player) == QuestList(s, allowed);
  }

  lemma FillFFAMakes(s: State, player: nat, allowed: LootItem -> bool)
    requires player !in s.playerFFA
    ensures var t := FillFFA(s, player, allowed);
            && ForAllListMade(s, t, player, allowed) && OthersKeep(s.playerFFA, t.playerFFA, player)
            && t.items == s.items && t.questItems == s.questItems && t.playerQuest == s.playerQuest
            && t.playerConditional == s.playerConditional
  {
    SelectedList(s.items, FFAFor(allowed));
    assert ListOf(FillFFA(s, player, allowed).playerFFA, player) == Select(s.items, FFAFor(allowed));
  }

  lemma FillConditionalMakes(s: State, player: nat, allowed: LootItem -> bool)
    requires player !in s.playerConditional
    ensures var t := FillConditional(s, player, allowed);
            && ConditionalListMade(s, t, player, allowed)
            && OthersKeep(s.playerConditional, t.playerConditional, player)
            && t.questItems == s.questItems && t.playerQuest == s.playerQuest && t.playerFFA == s.playerFFA
  {
    var p := ConditionalFor(allowed);
    SelectedList(s.items, p);
    var t := FillConditional(s, player, allowed);
    assert ListOf(t.playerConditional, player) == Select(s.items, p);
  }

  /** A looter in the world who comes to a loot gets all three lists, with exactly the items the looter may take,
      and the quest list only as far as the window reaches; nobody else's lists change. */
  lemma LooterIsGivenLists(s: State, player: nat, allowed: LootItem -> bool)
    requires |s.items| <= MAX_NR_LOOT_ITEMS
    requires player !in s.playerQuest && player !in s.playerFFA && player !in s.playerConditional
    ensures var t := FillNotNormalLootFor(s, player, true, allowed);
            && QuestListMade(s, t, player, allowed)
            && ForAllListMade(s, t, player, allowed)
            && ConditionalListMade(s, t, player, allowed)
            && OthersKeep(s.playerQuest, t.playerQuest, player) && OthersKeep(s.playerFFA, t.playerFFA, player)
            && OthersKeep(s.playerConditional, t.playerConditional, player)
  {
    FillQuestMakes(s, player, allowed);
    var s1 := FillQuest(s, player, allowed);
    FillFFAMakes(s1, player, allowed);
    FillConditionalMakes(FillFFA(s1, player, allowed), player, allowed);
  }

  /** A looter who has all three lists keeps them, and one who is not in the world is given none. */
  lemma ListsAreMadeOnce(s: State, player: nat, inWorld: bool, allowed: LootItem -> bool)
    requires !inWorld || (player in s.playerQuest && player in s.playerFFA && player in s.playerConditional)
    ensures FillNotNormalLootFor(s, player, inWorld, allowed) == s
  {
  }
}
