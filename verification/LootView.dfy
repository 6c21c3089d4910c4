/** What a looter is shown and what a clicked slot resolves to: `operator<<(ByteBuffer&, LootView)`
    against `Loot::LootItemInSlot`. A packet is the sequence of entries written into it. */
module LootView {
  import opened Basics
  import opened Loot

  datatype Permission = ALL | GROUP | MASTER | ROUND_ROBIN | OWNER | NONE

  const ALLOW_LOOT := 0
  const ROLL_ONGOING := 1
  const MASTER_LOOT := 2
  const LOCKED := 3
  const MAX_SLOT_TYPE := 5

  datatype Entry = Entry(slot: nat, item: LootItem, slotType: nat)

  /** The viewer, its permission, and the looter whose round-robin turn it is (0 if nobody's). */
  datatype View = View(viewer: nat, permission: Permission, roundRobinPlayer: nat, allowed: LootItem -> bool)

  // ---------- the slot resolver ----------

  /** The mark of the first list entry for a slot. */
  function FindMark(ql: seq<QuestItem>, slot: nat): Option<bool> {
    if ql == [] then None
    else if ql[0].index == slot then Some(ql[0].isLooted)
    else FindMark(ql[1..], slot)
  }

  function MarkFor(lists: PlayerLists, player: nat, slot: nat): Option<bool> {
    if player in lists then FindMark(lists[player], slot) else None
  }

  function LootItemInSlot(s: State, slot: nat, player: nat): Option<LootItem>
    requires WellFormed(s)
  {
    if slot >= |s.items| then
      var questSlot := slot - |s.items|;
      if player in s.playerQuest && questSlot < |s.playerQuest[player]| then
        var item := s.questItems[s.playerQuest[player][questSlot].index];
        if item.isLooted then None else Some(item)
      else None
    else
      var item := s.items[slot];
      var mark := if item.freeForAll then MarkFor(s.playerFFA, player, slot)
                  else if item.conditionId != 0 && !item.isLooted then MarkFor(s.playerConditional, player, slot)
                  else None;
      var isLooted := if mark.Some? then mark.value else item.isLooted;
      if isLooted then None else Some(item)
  }

  // ---------- the printer ----------

  /** The entries of a loop over 0..n that writes at most one entry a round. */
  function Written(n: nat, f: nat -> Option<Entry>): seq<Entry> {
    if n == 0 then [] else Written(n - 1, f) + (if f(n - 1).Some? then [f(n - 1).value] else [])
  }

  /** The shared items: everybody's entries that are neither looted nor free for all. */
  function SharedEntry(s: State, v: View): nat -> Option<Entry> {
    (i: nat) =>
      if i >= |s.items| || s.items[i].isLooted || s.items[i].freeForAll || !v.allowed(s.items[i]) then None
      else match v.permission
        case GROUP =>
          if s.items[i].isBlocked then Some(Entry(i, s.items[i], ROLL_ONGOING))
          else if v.roundRobinPlayer == 0 || !s.items[i].isUnderThreshold || v.viewer == v.roundRobinPlayer
          then Some(Entry(i, s.items[i], ALLOW_LOOT))
          else None
        case ROUND_ROBIN =>
          if v.roundRobinPlayer != 0 && v.viewer != v.roundRobinPlayer then None
          else Some(Entry(i, s.items[i], ALLOW_LOOT))
        case MASTER => Some(Entry(i, s.items[i], MASTER_LOOT))
        case ALL => Some(Entry(i, s.items[i], ALLOW_LOOT))
        case OWNER => Some(Entry(i, s.items[i], ALLOW_LOOT))
        case NONE => None
  }

  function OwnSlotType(v: View): nat { if v.permission == OWNER then ALLOW_LOOT else LOCKED }

  function QuestEntry(s: State, v: View): nat -> Option<Entry> {
    (k: nat) =>
      var ql := ListOf(s.playerQuest, v.viewer);
      if k >= |ql| || ql[k].index >= |s.questItems| || ql[k].isLooted || s.questItems[ql[k].index].isLooted then None
      else Some(Entry(|s.items| + k, s.questItems[ql[k].index], OwnSlotType(v)))
  }

  function FFAEntry(s: State, v: View): nat -> Option<Entry> {
    (k: nat) =>
      var ql := ListOf(s.playerFFA, v.viewer);
      if k >= |ql| || ql[k].index >= |s.items| || ql[k].isLooted || s.items[ql[k].index].isLooted then None
      else Some(Entry(ql[k].index, s.items[ql[k].index], OwnSlotType(v)))
  }

  function SlotTypeForSharedLoot(item: LootItem, v: View, conditionOk: bool): nat {
    if item.isLooted || item.freeForAll || (item.conditionId != 0 && !conditionOk) || !v.allowed(item)
    then MAX_SLOT_TYPE
    else match v.permission
      case GROUP => if item.isBlocked || item.isUnderThreshold then ALLOW_LOOT else ROLL_ONGOING
      case ALL => ALLOW_LOOT
      case OWNER => ALLOW_LOOT
      case MASTER => if !item.isUnderThreshold then MASTER_LOOT else ALLOW_LOOT
      case ROUND_ROBIN => MAX_SLOT_TYPE
      case NONE => MAX_SLOT_TYPE
  }

  function ConditionalEntry(s: State, v: View): nat -> Option<Entry> {
    (k: nat) =>
      var ql := ListOf(s.playerConditional, v.viewer);
      if k >= |ql| || ql[k].index >= |s.items| then None
      else
        var slotType := SlotTypeForSharedLoot(s.items[ql[k].index], v, !ql[k].isLooted);
        if slotType >= MAX_SLOT_TYPE then None else Some(Entry(ql[k].index, s.items[ql[k].index], slotType))
  }

  function SharedPart(s: State, v: View): seq<Entry> { Written(|s.items|, SharedEntry(s, v)) }

  function QuestPart(s: State, v: View): seq<Entry> { Written(|ListOf(s.playerQuest, v.viewer)|, QuestEntry(s, v)) }

  function FFAPart(s: State, v: View): seq<Entry> { Written(|ListOf(s.playerFFA, v.viewer)|, FFAEntry(s, v)) }

  function ConditionalPart(s: State, v: View): seq<Entry> {
    Written(|ListOf(s.playerConditional, v.viewer)|, ConditionalEntry(s, v))
  }

  /** The whole view. */
  function Shown(s: State, v: View): seq<Entry> {
    if v.permission == NONE then []
    else SharedPart(s, v) + QuestPart(s, v) + FFAPart(s, v) + ConditionalPart(s, v)
  }

  // ---------- printer and resolver agree ----------

  lemma {:induction false} WrittenFrom(n: nat, f: nat -> Option<Entry>)
    ensures |Written(n, f)| <= n
    ensures forall e :: e in Written(n, f) <==> exists i :: 0 <= i < n && f(i) == Some(e)
  {
    if n > 0 { WrittenFrom(n - 1, f); }
  }

  lemma {:induction false} FindMarkAt(ql: seq<QuestItem>, k: nat)
    requires k < |ql| && forall a, b :: 0 <= a < b < |ql| ==> ql[a].index < ql[b].index
    ensures FindMark(ql, ql[k].index) == Some(ql[k].isLooted)
  {
    if k > 0 {
      FindMarkAt(ql[1..], k - 1);
    }
  }

  lemma {:induction false} FindMarkFound(ql: seq<QuestItem>, slot: nat)
    requires FindMark(ql, slot).Some?
    ensures exists k :: 0 <= k < |ql| && ql[k].index == slot && ql[k].isLooted == FindMark(ql, slot).value
  {
    if ql[0].index != slot {
      FindMarkFound(ql[1..], slot);
      var k :| 0 <= k < |ql[1..]| && ql[1..][k].index == slot && ql[1..][k].isLooted == FindMark(ql, slot).value;
      assert ql[k + 1].index == slot;
    }
  }

  /** A player's looted mark on a conditional item is only ever set together with the item's own. */
  ghost predicate MarksAgree(s: State)
    requires WellFormed(s)
  {
    forall p <- s.playerConditional.Keys, k ::
      0 <= k < |s.playerConditional[p]| && s.playerConditional[p][k].isLooted ==>
      s.items[s.playerConditional[p][k].index].isLooted
  }

  lemma SharedResolves(s: State, v: View, i: nat)
    requires WellFormed(s) && MarksAgree(s) && SharedEntry(s, v)(i).Some?
    ensures LootItemInSlot(s, i, v.viewer) == Some(s.items[i])
  {
    if s.items[i].conditionId != 0 && v.viewer in s.playerConditional {
      var ql := s.playerConditional[v.viewer];
      if FindMark(ql, i).Some? { FindMarkFound(ql, i); }
    }
  }

  lemma FFAResolves(s: State, v: View, k: nat)
    requires WellFormed(s) && FFAEntry(s, v)(k).Some?
    ensures var e := FFAEntry(s, v)(k).value; LootItemInSlot(s, e.slot, v.viewer) == Some(e.item)
  {
    FindMarkAt(s.playerFFA[v.viewer], k);
  }

  lemma ConditionalResolves(s: State, v: View, k: nat)
    requires WellFormed(s) && ConditionalEntry(s, v)(k).Some?
    ensures var e := ConditionalEntry(s, v)(k).value; LootItemInSlot(s, e.slot, v.viewer) == Some(e.item)
  {
    FindMarkAt(s.playerConditional[v.viewer], k);
  }

  lemma SharedPartResolves(s: State, v: View, e: Entry)
    requires WellFormed(s) && MarksAgree(s) && e in SharedPart(s, v)
    ensures LootItemInSlot(s, e.slot, v.viewer) == Some(e.item)
  {
    WrittenFrom(|s.items|, SharedEntry(s, v));
    var i :| 0 <= i < |s.items| && SharedEntry(s, v)(i) == Some(e);
    SharedResolves(s, v, i);
  }

  lemma QuestPartResolves(s: State, v: View, e: Entry)
    requires WellFormed(s) && e in QuestPart(s, v)
    ensures LootItemInSlot(s, e.slot, v.viewer) == Some(e.item)
  {
    WrittenFrom(|ListOf(s.playerQuest, v.viewer)|, QuestEntry(s, v));
    var k :| 0 <= k < |ListOf(s.playerQuest, v.viewer)| && QuestEntry(s, v)(k) == Some(e);
  }

  lemma FFAPartResolves(s: State, v: View, e: Entry)
    requires WellFormed(s) && e in FFAPart(s, v)
    ensures LootItemInSlot(s, e.slot, v.viewer) == Some(e.item)
  {
    WrittenFrom(|ListOf(s.playerFFA, v.viewer)|, FFAEntry(s, v));
    var k :| 0 <= k < |ListOf(s.playerFFA, v.viewer)| && FFAEntry(s, v)(k) == Some(e);
    FFAResolves(s, v, k);
  }

  lemma ConditionalPartResolves(s: State, v: View, e: Entry)
    requires WellFormed(s) && e in ConditionalPart(s, v)
    ensures LootItemInSlot(s, e.slot, v.viewer) == Some(e.item)
  {
    WrittenFrom(|ListOf(s.playerConditional, v.viewer)|, ConditionalEntry(s, v));
    var k :| 0 <= k < |ListOf(s.playerConditional, v.viewer)| && ConditionalEntry(s, v)(k) == Some(e);
    ConditionalResolves(s, v, k);
  }

  /** Every slot shown, under any permission, resolves to the very item shown in it. */
  lemma ShownSlotsResolve(s: State, v: View, e: Entry)
    requires WellFormed(s) && MarksAgree(s) && e in Shown(s, v)
    ensures LootItemInSlot(s, e.slot, v.viewer) == Some(e.item)
  {
    if e in SharedPart(s, v) {
      SharedPartResolves(s, v, e);
    } else if e in QuestPart(s, v) {
      QuestPartResolves(s, v, e);
    } else if e in FFAPart(s, v) {
      FFAPartResolves(s, v, e);
    } else {
      ConditionalPartResolves(s, v, e);
    }
  }

  lemma ListIsShort(ql: seq<QuestItem>, items: seq<LootItem>, p: LootItem -> bool)
    requires Indexes(ql, items, p)
    ensures |ql| <= |items|
  {
    ListWithinCount(ql, items, p);
    CountAtMost(items, p);
  }

  predicate SmallSlots(part: seq<Entry>) {
    forall e <- part :: e.slot < 48
  }

  lemma SharedFits(s: State, v: View)
    requires WellFormed(s)
    ensures |SharedPart(s, v)| <= 16 && SmallSlots(SharedPart(s, v))
  {
    WrittenFrom(|s.items|, SharedEntry(s, v));
  }

  lemma QuestFits(s: State, v: View)
    requires WellFormed(s)
    ensures |QuestPart(s, v)| <= 32 && SmallSlots(QuestPart(s, v))
  {
    WrittenFrom(|ListOf(s.playerQuest, v.viewer)|, QuestEntry(s, v));
    if v.viewer in s.playerQuest { ListIsShort(s.playerQuest[v.viewer], s.questItems, Any); }
  }

  lemma FFAFits(s: State, v: View)
    requires WellFormed(s)
    ensures |FFAPart(s, v)| <= 16 && SmallSlots(FFAPart(s, v))
  {
    WrittenFrom(|ListOf(s.playerFFA, v.viewer)|, FFAEntry(s, v));
    if v.viewer in s.playerFFA { ListIsShort(s.playerFFA[v.viewer], s.items, ForAll); }
  }

  lemma ConditionalFits(s: State, v: View)
    requires WellFormed(s)
    ensures |ConditionalPart(s, v)| <= 16 && SmallSlots(ConditionalPart(s, v))
  {
    WrittenFrom(|ListOf(s.playerConditional, v.viewer)|, ConditionalEntry(s, v));
    if v.viewer in s.playerConditional { ListIsShort(s.playerConditional[v.viewer], s.items, Conditional); }
  }

  /** The view is small enough for its count byte, and every slot number fits a byte. */
  lemma ShownFitsBytes(s: State, v: View)
    requires WellFormed(s)
    ensures |Shown(s, v)| <= 80
    ensures forall e <- Shown(s, v) :: e.slot < 48
  {
    SharedFits(s, v);
    QuestFits(s, v);
    FFAFits(s, v);
    ConditionalFits(s, v);
  }

  // ---------- which slots are shown twice ----------

  predicate OpenToAll(p: Permission) { p == ALL || p == MASTER || p == OWNER }

  /** With a plain permission each conditional entry repeats a slot that the shared part already shows. */
  lemma ConditionalSlotsRepeat(s: State, v: View, e: Entry)
    requires WellFormed(s) && OpenToAll(v.permission) && e in ConditionalPart(s, v)
    ensures exists f <- SharedPart(s, v) :: f.slot == e.slot && f.item == e.item
  {
    WrittenFrom(|ListOf(s.playerConditional, v.viewer)|, ConditionalEntry(s, v));
    var k :| 0 <= k < |ListOf(s.playerConditional, v.viewer)| && ConditionalEntry(s, v)(k) == Some(e);
    SharedShows(s, v, k);
    WrittenFrom(|s.items|, SharedEntry(s, v));
    assert SharedEntry(s, v)(e.slot).value in SharedPart(s, v);
  }

  lemma SharedShows(s: State, v: View, k: nat)
    requires WellFormed(s) && OpenToAll(v.permission) && ConditionalEntry(s, v)(k).Some?
    ensures var e := ConditionalEntry(s, v)(k).value;
            && e.slot < |s.items| && e.item == s.items[e.slot]
            && SharedEntry(s, v)(e.slot).Some? && SharedEntry(s, v)(e.slot).value.slot == e.slot
            && SharedEntry(s, v)(e.slot).value.item == e.item
  {
  }

  /** No slot is written twice. */
  predicate SlotsOnce(part: seq<Entry>) {
    forall i, j :: 0 <= i < j < |part| ==> part[i].slot != part[j].slot
  }

  predicate SlotsApart(a: seq<Entry>, b: seq<Entry>) {
    forall e <- a, f <- b :: e.slot != f.slot
  }

  lemma OnceTogether(a: seq<Entry>, b: seq<Entry>)
    requires SlotsOnce(a) && SlotsOnce(b) && SlotsApart(a, b)
    ensures SlotsOnce(a + b)
  {
    assert forall i :: 0 <= i < |a| ==> a[i] in a;
    assert forall j :: 0 <= j < |b| ==> b[j] in b;
  }

  /** Loops whose slots grow write no slot twice. */
  lemma {:induction false} GrowingSlotsOnce(n: nat, f: nat -> Option<Entry>)
    requires forall i: nat, j: nat :: i < j < n && f(i).Some? && f(j).Some? ==> f(i).value.slot < f(j).value.slot
    ensures SlotsOnce(Written(n, f))
  {
    if n > 0 {
      GrowingSlotsOnce(n - 1, f);
      WrittenFrom(n - 1, f);
      var before := Written(n - 1, f);
      assert forall i :: 0 <= i < |before| ==> before[i] in before;
    }
  }

  /** The shared, quest and free-for-all parts show different slots: items for one looter, slots past the
      items, and items for all. */
  lemma PartsApart(s: State, v: View)
    requires WellFormed(s)
    ensures SlotsOnce(SharedPart(s, v) + QuestPart(s, v) + FFAPart(s, v))
  {
    GrowingSlotsOnce(|s.items|, SharedEntry(s, v));
    GrowingSlotsOnce(|ListOf(s.playerQuest, v.viewer)|, QuestEntry(s, v));
    GrowingSlotsOnce(|ListOf(s.playerFFA, v.viewer)|, FFAEntry(s, v));
    PartSlots(s, v);
    OnceTogether(SharedPart(s, v), QuestPart(s, v));
    OnceTogether(SharedPart(s, v) + QuestPart(s, v), FFAPart(s, v));
  }

  lemma PartSlots(s: State, v: View)
    requires WellFormed(s)
    ensures forall e <- SharedPart(s, v) :: e.slot < |s.items| && !s.items[e.slot].freeForAll
    ensures forall e <- QuestPart(s, v) :: e.slot >= |s.items|
    ensures forall e <- FFAPart(s, v) :: e.slot < |s.items| && s.items[e.slot].freeForAll
  {
    WrittenFrom(|s.items|, SharedEntry(s, v));
    WrittenFrom(|ListOf(s.playerQuest, v.viewer)|, QuestEntry(s, v));
    WrittenFrom(|ListOf(s.playerFFA, v.viewer)|, FFAEntry(s, v));
  }

  /** With a plain permission some slot is shown twice exactly if the conditional part is not empty. */
  lemma SlotsRepeatByConditions(s: State, v: View)
    requires WellFormed(s) && OpenToAll(v.permission)
    ensures SlotsOnce(Shown(s, v)) <==> ConditionalPart(s, v) == []
  {
    PartsApart(s, v);
    var shared, conditional := SharedPart(s, v), ConditionalPart(s, v);
    var others := shared + QuestPart(s, v) + FFAPart(s, v);
    if conditional == [] {
      assert others + [] == others;
    } else {
      ConditionalSlotsRepeat(s, v, conditional[0]);
      var f :| f in shared && f.slot == conditional[0].slot;
      var i :| 0 <= i < |shared| && shared[i] == f;
      assert Shown(s, v)[i] == f && Shown(s, v)[|others|] == conditional[0];
    }
  }

  // ---------- which slots are shown, and which resolve ----------

  ghost predicate ShowsSlot(part: seq<Entry>, slot: nat) { exists e <- part :: e.slot == slot }

  /** Shared items are shown to everybody, but in group and round-robin loot only in the looter's turn; outside it,
      group loot shows those rolled for and those at or over the threshold. */
  predicate InTurn(v: View, x: LootItem) {
    var turn := v.roundRobinPlayer == 0 || v.viewer == v.roundRobinPlayer;
    match v.permission
    case GROUP => turn || x.isBlocked || !x.isUnderThreshold
    case ROUND_ROBIN => turn
    case NONE => false
    case _ => true
  }

  lemma SharedPartShows(s: State, v: View, slot: nat)
    ensures ShowsSlot(SharedPart(s, v), slot) <==>
              && slot < |s.items| && !s.items[slot].isLooted && !s.items[slot].freeForAll && v.allowed(s.items[slot])
              && InTurn(v, s.items[slot])
  {
    var f := SharedEntry(s, v);
    WrittenFrom(|s.items|, f);
    if slot < |s.items| && f(slot).Some? {
      assert f(slot).value in SharedPart(s, v);
    }
  }

  /** The player has an own entry for the item, and has not taken it. */
  predicate HasUnmarked(ql: seq<QuestItem>, i: nat) {
    exists k :: 0 <= k < |ql| && ql[k].index == i && !ql[k].isLooted
  }

  lemma QuestPartShows(s: State, v: View, slot: nat)
    requires WellFormed(s)
    ensures ShowsSlot(QuestPart(s, v), slot) <==>
              var ql, k := ListOf(s.playerQuest, v.viewer), slot - |s.items|;
              0 <= k < |ql| && !ql[k].isLooted && !s.questItems[ql[k].index].isLooted
  {
    var ql, f := ListOf(s.playerQuest, v.viewer), QuestEntry(s, v);
    WrittenFrom(|ql|, f);
    var k := slot - |s.items|;
    if 0 <= k < |ql| && f(k).Some? {
      assert f(k).value in QuestPart(s, v);
    }
  }

  lemma FFAPartShows(s: State, v: View, slot: nat)
    requires WellFormed(s)
    ensures ShowsSlot(FFAPart(s, v), slot) <==>
              slot < |s.items| && !s.items[slot].isLooted && HasUnmarked(ListOf(s.playerFFA, v.viewer), slot)
  {
    var ql, f := ListOf(s.playerFFA, v.viewer), FFAEntry(s, v);
    WrittenFrom(|ql|, f);
    if slot < |s.items| && !s.items[slot].isLooted && HasUnmarked(ql, slot) {
      var k :| 0 <= k < |ql| && ql[k].index == slot && !ql[k].isLooted;
      assert f(k).value in FFAPart(s, v);
    }
  }

  lemma ShowsSlotJoins(a: seq<Entry>, b: seq<Entry>, slot: nat)
    ensures ShowsSlot(a + b, slot) <==> ShowsSlot(a, slot) || ShowsSlot(b, slot)
  {
  }

  /** The item in the slot is not looted and is either shared and allowed, or one for everybody that the viewer
      still has an own entry for, or a quest item in the viewer's list that is not taken. */
  predicate IsThereFor(s: State, v: View, slot: nat)
    requires WellFormed(s)
  {
    if slot < |s.items| then
      var x := s.items[slot];
      !x.isLooted && if x.freeForAll then HasUnmarked(ListOf(s.playerFFA, v.viewer), slot) else v.allowed(x)
    else
      var ql, k := ListOf(s.playerQuest, v.viewer), slot - |s.items|;
      k < |ql| && !ql[k].isLooted && !s.questItems[ql[k].index].isLooted
  }

  /** Under an open permission exactly those slots are shown. */
  lemma ShownSlots(s: State, v: View, slot: nat)
    requires WellFormed(s) && OpenToAll(v.permission)
    ensures ShowsSlot(Shown(s, v), slot) <==> IsThereFor(s, v, slot)
  {
    SharedPartShows(s, v, slot);
    QuestPartShows(s, v, slot);
    FFAPartShows(s, v, slot);
    FFAIsForAll(s, v, slot);
    ConditionalIsShared(s, v, slot);
    ShowsSlotJoins(SharedPart(s, v), QuestPart(s, v), slot);
    ShowsSlotJoins(SharedPart(s, v) + QuestPart(s, v), FFAPart(s, v), slot);
    ShowsSlotJoins(SharedPart(s, v) + QuestPart(s, v) + FFAPart(s, v), ConditionalPart(s, v), slot);
  }

  lemma FFAIsForAll(s: State, v: View, slot: nat)
    requires WellFormed(s)
    ensures slot < |s.items| && HasUnmarked(ListOf(s.playerFFA, v.viewer), slot) ==> s.items[slot].freeForAll
  {
  }

  lemma ConditionalIsShared(s: State, v: View, slot: nat)
    requires WellFormed(s) && OpenToAll(v.permission)
    ensures ShowsSlot(ConditionalPart(s, v), slot) ==> ShowsSlot(SharedPart(s, v), slot)
  {
    if ShowsSlot(ConditionalPart(s, v), slot) {
      var e :| e in ConditionalPart(s, v) && e.slot == slot;
      ConditionalSlotsRepeat(s, v, e);
    }
  }

  /** A slot resolves to its own item or to nothing: for an item for everybody that the player has an own entry of, by
      that entry's mark; for all others exactly if the item is not looted. */
  lemma SlotResolves(s: State, slot: nat, player: nat)
    requires WellFormed(s) && MarksAgree(s)
    ensures var r := LootItemInSlot(s, slot, player);
            if slot < |s.items| then
              var x, ql := s.items[slot], ListOf(s.playerFFA, player);
              && (r.Some? ==> r.value == x)
              && (r.Some? <==> if x.freeForAll && Holds(ql, slot) then HasUnmarked(ql, slot) else !x.isLooted)
            else
              var ql, k := ListOf(s.playerQuest, player), slot - |s.items|;
              && (r.Some? ==> k < |ql| && r.value == s.questItems[ql[k].index])
              && (r.Some? <==> k < |ql| && !s.questItems[ql[k].index].isLooted)
  {
    if slot < |s.items| {
      var x := s.items[slot];
      if x.freeForAll {
        MarkOfSlot(ListOf(s.playerFFA, player), slot);
      } else if x.conditionId != 0 && player in s.playerConditional {
        MarkOfSlot(s.playerConditional[player], slot);
      }
    }
  }

  lemma ThereOrUnseen(s: State, v: View, slot: nat)
    requires WellFormed(s) && MarksAgree(s)
    ensures LootItemInSlot(s, slot, v.viewer).Some? <==> IsThereFor(s, v, slot) || ResolvesUnseen(s, v, slot)
    ensures !(IsThereFor(s, v, slot) && ResolvesUnseen(s, v, slot))
  {
    SlotResolves(s, slot, v.viewer);
    if slot < |s.items| && HasUnmarked(ListOf(s.playerFFA, v.viewer), slot) {
      assert Holds(ListOf(s.playerFFA, v.viewer), slot);
    }
  }

  lemma MarkOfSlot(ql: seq<QuestItem>, slot: nat)
    requires forall a, b :: 0 <= a < b < |ql| ==> ql[a].index < ql[b].index
    ensures FindMark(ql, slot).Some? <==> Holds(ql, slot)
    ensures FindMark(ql, slot) == Some(false) <==> HasUnmarked(ql, slot)
  {
    if Holds(ql, slot) {
      var k :| 0 <= k < |ql| && ql[k].index == slot;
      FindMarkAt(ql, k);
    }
    if FindMark(ql, slot).Some? { FindMarkFound(ql, slot); }
  }

  /** What resolves without being shown under an open permission: a shared item the viewer may not have, one for
      everybody that the viewer has no own entry of, or one the viewer's entry of which is not marked although the
      item is looted; and a quest item whose entry is marked while the item is not. */
  predicate ResolvesUnseen(s: State, v: View, slot: nat)
    requires WellFormed(s)
  {
    if slot < |s.items| then
      var x, ql := s.items[slot], ListOf(s.playerFFA, v.viewer);
      if !x.freeForAll then !x.isLooted && !v.allowed(x)
      else if Holds(ql, slot) then HasUnmarked(ql, slot) && x.isLooted
      else !x.isLooted
    else
      var ql, k := ListOf(s.playerQuest, v.viewer), slot - |s.items|;
      k < |ql| && ql[k].isLooted && !s.questItems[ql[k].index].isLooted
  }

  /** The converse of ShownSlotsResolve: with exactly those exceptions, a slot that resolves is shown. */
  lemma ResolvingSlotsAreShown(s: State, v: View, slot: nat)
    requires WellFormed(s) && MarksAgree(s) && OpenToAll(v.permission)
    ensures LootItemInSlot(s, slot, v.viewer).Some? <==> ShowsSlot(Shown(s, v), slot) || ResolvesUnseen(s, v, slot)
    ensures !(ShowsSlot(Shown(s, v), slot) && ResolvesUnseen(s, v, slot))
  {
    ShownSlots(s, v, slot);
    ThereOrUnseen(s, v, slot);
  }

  // ---------- slot types ----------

  lemma SharedTypes(s: State, v: View, e: Entry)
    requires e in SharedPart(s, v)
    ensures v.permission == ALL || v.permission == OWNER ==> e.slotType == ALLOW_LOOT
    ensures v.permission == MASTER ==> e.slotType == MASTER_LOOT
    ensures v.permission == GROUP ==> e.slotType == if e.item.isBlocked then ROLL_ONGOING else ALLOW_LOOT
  {
    WrittenFrom(|s.items|, SharedEntry(s, v));
  }

  lemma OwnTypes(s: State, v: View, e: Entry)
    requires e in QuestPart(s, v) || e in FFAPart(s, v)
    ensures e.slotType == if v.permission == OWNER then ALLOW_LOOT else LOCKED
  {
    WrittenFrom(|ListOf(s.playerQuest, v.viewer)|, QuestEntry(s, v));
    WrittenFrom(|ListOf(s.playerFFA, v.viewer)|, FFAEntry(s, v));
  }

  lemma ConditionalTypes(s: State, v: View, e: Entry)
    requires e in ConditionalPart(s, v)
    ensures v.permission == ALL || v.permission == OWNER ==> e.slotType == ALLOW_LOOT
  {
    WrittenFrom(|ListOf(s.playerConditional, v.viewer)|, ConditionalEntry(s, v));
  }

  /** An owner may take whatever is shown; for all others the own parts are locked, and the shared items have the type
      of the permission. */
  lemma SlotTypesShown(s: State, v: View, e: Entry)
    requires e in Shown(s, v)
    ensures v.permission == OWNER ==> e.slotType == ALLOW_LOOT
    ensures v.permission != OWNER && (e in QuestPart(s, v) || e in FFAPart(s, v)) ==> e.slotType == LOCKED
    ensures v.permission == MASTER && e in SharedPart(s, v) ==> e.slotType == MASTER_LOOT
    ensures v.permission == ALL && e in SharedPart(s, v) ==> e.slotType == ALLOW_LOOT
    ensures v.permission == GROUP && e in SharedPart(s, v) ==>
              e.slotType == if e.item.isBlocked then ROLL_ONGOING else ALLOW_LOOT
  {
    if e in SharedPart(s, v) { SharedTypes(s, v, e); }
    if e in QuestPart(s, v) || e in FFAPart(s, v) { OwnTypes(s, v, e); }
    if e in ConditionalPart(s, v) { ConditionalTypes(s, v, e); }
  }

  /** A conditional item is shown to its looter twice, and in group loot the two slot types agree exactly if the item
      is under the threshold and not rolled for. */
  lemma GroupTypesAgree(s: State, v: View, k: nat)
    requires WellFormed(s) && v.permission == GROUP && ConditionalEntry(s, v)(k).Some?
    ensures var e := ConditionalEntry(s, v)(k).value;
            && e.slot < |s.items| && e.item == s.items[e.slot]
            && (SharedEntry(s, v)(e.slot).Some? ==>
                  (SharedEntry(s, v)(e.slot).value.slotType == e.slotType <==>
                     e.item.isUnderThreshold && !e.item.isBlocked))
  {
  }

  // ---------- the printer as written ----------

  /** The switch over permissions and its loops over the shared items. */
  method PrintShared(s: State, v: View) returns (packet: seq<Entry>)
    requires v.permission != NONE
    ensures packet == SharedPart(s, v)
  {
    packet := [];
    var i := 0;
    while i < |s.items|
      invariant 0 <= i <= |s.items|
      invariant packet == Written(i, SharedEntry(s, v))
    {
      var item := s.items[i];
      if !item.isLooted && !item.freeForAll && v.allowed(item) {
        match v.permission
        case GROUP =>
          if item.isBlocked {
            packet := packet + [Entry(i, item, ROLL_ONGOING)];
          } else if v.roundRobinPlayer == 0 || !item.isUnderThreshold || v.viewer == v.roundRobinPlayer {
            packet := packet + [Entry(i, item, ALLOW_LOOT)];
          }
        case ROUND_ROBIN =>
          if v.roundRobinPlayer == 0 || v.viewer == v.roundRobinPlayer {
            packet := packet + [Entry(i, item, ALLOW_LOOT)];
          }
        case MASTER => packet := packet + [Entry(i, item, MASTER_LOOT)];
        case ALL => packet := packet + [Entry(i, item, ALLOW_LOOT)];
        case OWNER => packet := packet + [Entry(i, item, ALLOW_LOOT)];
      }
      i := i + 1;
    }
  }

  method PrintQuest(s: State, v: View, slotType: nat) returns (packet: seq<Entry>)
    requires WellFormed(s) && slotType == OwnSlotType(v)
    ensures packet == QuestPart(s, v)
  {
    packet := [];
    if v.viewer in s.playerQuest {
      var ql := s.playerQuest[v.viewer];
      var i := 0;
      while i < |ql|
        invariant 0 <= i <= |ql|
        invariant packet == Written(i, QuestEntry(s, v))
      {
        var item := s.questItems[ql[i].index];
        if !ql[i].isLooted && !item.isLooted {
          packet := packet + [Entry(|s.items| + i, item, slotType)];
        }
        i := i + 1;
      }
    }
  }

  method PrintFFA(s: State, v: View, slotType: nat) returns (packet: seq<Entry>)
    requires WellFormed(s) && slotType == OwnSlotType(v)
    ensures packet == FFAPart(s, v)
  {
    packet := [];
    if v.viewer in s.playerFFA {
      var ql := s.playerFFA[v.viewer];
      var i := 0;
      while i < |ql|
        invariant 0 <= i <= |ql|
        invariant packet == Written(i, FFAEntry(s, v))
      {
        var item := s.items[ql[i].index];
        if !ql[i].isLooted && !item.isLooted {
          packet := packet + [Entry(ql[i].index, item, slotType)];
        }
        i := i + 1;
      }
    }
  }

  method PrintConditional(s: State, v: View) returns (packet: seq<Entry>)
    requires WellFormed(s)
    ensures packet == ConditionalPart(s, v)
  {
    packet := [];
    if v.viewer in s.playerConditional {
      var ql := s.playerConditional[v.viewer];
      var i := 0;
      while i < |ql|
        invariant 0 <= i <= |ql|
        invariant packet == Written(i, ConditionalEntry(s, v))
      {
        var item := s.items[ql[i].index];
        var slotType := SlotTypeForSharedLoot(item, v, !ql[i].isLooted);
        if slotType < MAX_SLOT_TYPE {
          packet := packet + [Entry(ql[i].index, item, slotType)];
        }
        i := i + 1;
      }
    }
  }

  /** The packet's count byte and its entries. */
  method Print(s: State, v: View) returns (itemsShown: Uint8, packet: seq<Entry>)
    requires WellFormed(s)
    ensures packet == Shown(s, v)
    ensures itemsShown == |packet|
  {
    ShownFitsBytes(s, v);
    if v.permission == NONE {
      return 0, [];
    }
    var shared := PrintShared(s, v);
    var slotType := if v.permission == OWNER then ALLOW_LOOT else LOCKED;
    var quest := PrintQuest(s, v, slotType);
    var ffa := PrintFFA(s, v, slotType);
    var conditional := PrintConditional(s, v);
    packet := shared + quest + ffa + conditional;
    itemsShown := |packet|;
  }

  /** The resolver as written: it searches the player's list only where the item asks for it. */
  method Resolve(s: State, slot: nat, player: nat) returns (r: Option<LootItem>)
    requires WellFormed(s)
    ensures r == LootItemInSlot(s, slot, player)
  {
    var item: LootItem;
    var isLooted := true;
    if slot >= |s.items| {
      var questSlot := slot - |s.items|;
      if player !in s.playerQuest || questSlot >= |s.playerQuest[player]| {
        return None;
      }
      item := s.questItems[s.playerQuest[player][questSlot].index];
      isLooted := item.isLooted;
    } else {
      item := s.items[slot];
      isLooted := item.isLooted;
      var mark: Option<bool> := None;
      if item.freeForAll {
        if player in s.playerFFA {
          mark := SearchMark(s.playerFFA[player], slot);
        }
      } else if item.conditionId != 0 && !isLooted {
        if player in s.playerConditional {
          mark := SearchMark(s.playerConditional[player], slot);
        }
      }
      if mark.Some? {
        isLooted := mark.value;
      }
    }
    r := if isLooted then None else Some(item);
  }

  /** The slot search as written: a loop over the player's list. */
  method SearchMark(ql: seq<QuestItem>, slot: nat) returns (mark: Option<bool>)
    ensures mark == FindMark(ql, slot)
  {
    var i := 0;
    while i < |ql|
      invariant 0 <= i <= |ql|
      invariant FindMark(ql, slot) == FindMark(ql[i..], slot)
    {
      if ql[i].index == slot {
        return Some(ql[i].isLooted);
      }
      assert ql[i..][1..] == ql[i + 1..];
      i := i + 1;
    }
    mark := None;
  }
}
