/** Loot templates: loading, the roll of a group, references, and the question whether a template can drop
    quest items (LootTemplate and LootGroup in LootMgr.cpp). Every roll is a free choice, so what is proved
    holds for all rolls. */
module LootTemplate {
  import opened Basics
  import opened Loot

  /** Grouped plain items, split by whether they carry a chance of their own. */
  datatype LootGroup = LootGroup(explicitly: seq<LootStoreItem>, equal: seq<LootStoreItem>, conditionalEqual: bool)

  datatype Template = Template(entries: seq<LootStoreItem>, groups: seq<LootGroup>)

  type TemplateStore = map<nat, Template>

  predicate IsReference(e: LootStoreItem) { e.mincountOrRef < 0 }

  // ---------- loading ----------

  const NO_GROUP := LootGroup([], [], false)

  function GroupWith(g: LootGroup, item: LootStoreItem): LootGroup {
    if item.chance != 0.0 then g.(explicitly := g.explicitly + [item])
    else g.(equal := g.equal + [item], conditionalEqual := g.conditionalEqual || item.conditionId != 0)
  }

  /** Makes room for n groups; never shrinks. */
  function Resized(groups: seq<LootGroup>, n: nat): seq<LootGroup> {
    if |groups| < n then groups + seq(n - |groups|, _ => NO_GROUP) else groups
  }

  function AddEntry(t: Template, item: LootStoreItem): Template {
    if item.group > 0 && item.mincountOrRef > 0 then
      var groups := if item.group >= |t.groups| then Resized(t.groups, item.group) else t.groups;
      t.(groups := groups[item.group - 1 := GroupWith(groups[item.group - 1], item)])
    else t.(entries := t.entries + [item])
  }

  predicate InGroup(g: LootGroup, si: LootStoreItem) { si in g.explicitly || si in g.equal }

  predicate InGroups(t: Template, i: nat, si: LootStoreItem) { i < |t.groups| && InGroup(t.groups[i], si) }

  ghost predicate InTemplate(t: Template, si: LootStoreItem) {
    si in t.entries || exists i: nat :: InGroups(t, i, si)
  }

  /** Groups hold plain items only. */
  ghost predicate PlainGroups(t: Template) {
    forall i: nat, si :: InGroups(t, i, si) ==> !IsReference(si)
  }

  /** Loading files the item in its own group or among the entries, loses nothing and never lets a
      reference into a group. */
  lemma AddEntryFiles(t: Template, item: LootStoreItem, si: LootStoreItem)
    ensures InTemplate(AddEntry(t, item), si) <==> InTemplate(t, si) || si == item
    ensures item.group > 0 && item.mincountOrRef > 0 ==> InGroups(AddEntry(t, item), item.group - 1, item)
    ensures PlainGroups(t) ==> PlainGroups(AddEntry(t, item))
  {
    var t' := AddEntry(t, item);
    if item.group > 0 && item.mincountOrRef > 0 {
      forall i: nat, x
        ensures InGroups(t', i, x) <==> InGroups(t, i, x) || (x == item && i == item.group - 1)
      {
      }
      assert InGroups(t', item.group - 1, item);
    } else {
      assert t'.groups == t.groups;
      forall i: nat, x
        ensures InGroups(t', i, x) <==> InGroups(t, i, x)
      {
      }
    }
  }

  // ---------- rolling a group ----------

  function PrefixChance(items: seq<LootStoreItem>, n: nat): real
    requires n <= |items|
  {
    if n == 0 then 0.0 else PrefixChance(items, n - 1) + items[n - 1].chance
  }

  /** The running-sum loop over explicitly chanced items from index i, with the roll left over. */
  function PickFrom(items: seq<LootStoreItem>, i: nat, roll: real): (r: Option<nat>)
    requires i <= |items|
    ensures r.Some? ==> i <= r.value < |items|
    decreases |items| - i
  {
    if i == |items| then None
    else if items[i].chance >= 100.0 then Some(i)
    else if roll - items[i].chance < 0.0 then Some(i)
    else PickFrom(items, i + 1, roll - items[i].chance)
  }

  /** A roll picks item k exactly if it falls into k's own interval of the running sum, the last
      interval before a certain item being open-ended. */
  lemma {:induction false} PickIsInterval(items: seq<LootStoreItem>, i: nat, roll: real, k: nat)
    requires i <= k < |items| && forall j :: 0 <= j < |items| ==> items[j].chance > 0.0
    ensures PickFrom(items, i, roll - PrefixChance(items, i)) == Some(k) <==>
              && (forall j :: i <= j < k ==> items[j].chance < 100.0)
              && (i < k ==> roll >= PrefixChance(items, k))
              && (items[k].chance >= 100.0 || roll < PrefixChance(items, k + 1))
    decreases |items| - i
  {
    var left := roll - PrefixChance(items, i);
    assert left - items[i].chance == roll - PrefixChance(items, i + 1);
    if i < k {
      PrefixGrows(items, i + 1, k);
      PickIsInterval(items, i + 1, roll, k);
    }
  }

  lemma {:induction false} PrefixGrows(items: seq<LootStoreItem>, m: nat, n: nat)
    requires m <= n <= |items| && forall j :: 0 <= j < |items| ==> items[j].chance > 0.0
    ensures PrefixChance(items, m) <= PrefixChance(items, n)
    decreases n
  {
    if m < n { PrefixGrows(items, m, n - 1); }
  }

  /** Looting teams that an equal-chanced item's condition rules out, and whether the loot is open to
      both teams. */
  datatype Looters = Looters(crossFaction: bool, suits: LootStoreItem -> bool)

  /** What a group may yield: the item its roll falls on, else any suitable equal-chanced item. */
  ghost predicate Yields(g: LootGroup, looters: Looters, roll: real, r: Option<LootStoreItem>) {
    var pick := if g.explicitly == [] then None else PickFrom(g.explicitly, 0, roll);
    if pick.Some? then r == Some(g.explicitly[pick.value])
    else
      var free := !g.conditionalEqual || looters.crossFaction;
      if r.None? then forall x <- g.equal :: !free && !looters.suits(x)
      else r.value in g.equal && (free || looters.suits(r.value))
  }

  method RollGroup(g: LootGroup, looters: Looters) returns (r: Option<LootStoreItem>, roll: real)
    ensures 0.0 <= roll < 100.0 && Yields(g, looters, roll, r)
  {
    roll := 0.0;
    if g.explicitly != [] {
      var left: real :| 0.0 <= left < 100.0;
      roll := left;
      var i := 0;
      while i < |g.explicitly|
        invariant 0 <= i <= |g.explicitly|
        invariant PickFrom(g.explicitly, 0, roll) == PickFrom(g.explicitly, i, left)
      {
        if g.explicitly[i].chance >= 100.0 {
          return Some(g.explicitly[i]), roll;
        }
        left := left - g.explicitly[i].chance;
        if left < 0.0 {
          return Some(g.explicitly[i]), roll;
        }
        i := i + 1;
      }
    }
    if g.equal != [] {
      if !g.conditionalEqual || looters.crossFaction {
        var k: nat := *;
        return Some(g.equal[k % |g.equal|]), roll;
      }
      var indexesOk: seq<nat> := [];
      var i := 0;
      while i < |g.equal|
        invariant 0 <= i <= |g.equal|
        invariant forall k <- indexesOk :: k < |g.equal| && looters.suits(g.equal[k])
        invariant forall j :: 0 <= j < i && looters.suits(g.equal[j]) ==> j in indexesOk
      {
        if looters.suits(g.equal[i]) {
          indexesOk := indexesOk + [i];
        }
        i := i + 1;
      }
      if indexesOk != [] {
        var k: nat := *;
        var index := indexesOk[k % |indexesOk|];
        assert index in indexesOk;
        return Some(g.equal[index]), roll;
      }
    }
    r := None;
  }

  // ---------- references ----------

  /** An ungrouped reference of t to template r; only those recurse. */
  predicate RefersTo(store: TemplateStore, t: Template, r: nat) {
    r in store && exists e <- t.entries :: IsReference(e) && -e.mincountOrRef == r && e.group == 0
  }

  /** A path of ungrouped references from t. */
  predicate Chain(store: TemplateStore, t: Template, path: seq<nat>)
    decreases path
  {
    path == [] || (RefersTo(store, t, path[0]) && Chain(store, store[path[0]], path[1..]))
  }

  function EndOf(store: TemplateStore, t: Template, path: seq<nat>): Template
    requires Chain(store, t, path)
    decreases path
  {
    if path == [] then t else EndOf(store, store[path[0]], path[1..])
  }

  predicate InGroupNr(t: Template, groupId: nat, si: LootStoreItem) {
    0 < groupId <= |t.groups| && InGroup(t.groups[groupId - 1], si)
  }

  /** What one template offers itself: plain entries, its groups, and single groups it refers to. */
  ghost predicate Offers(store: TemplateStore, t: Template, si: LootStoreItem) {
    || (si in t.entries && !IsReference(si))
    || (exists i: nat :: InGroups(t, i, si))
    || (exists e <- t.entries :: IsReference(e) && e.group > 0 && -e.mincountOrRef in store
                                 && InGroupNr(store[-e.mincountOrRef], e.group, si))
  }

  ghost predicate OffersAlong(store: TemplateStore, t: Template, path: seq<nat>, si: LootStoreItem) {
    Chain(store, t, path) && Offers(store, EndOf(store, t, path), si)
  }

  /** Everything within reach of t, through any number of references; chances and counts are left aside. */
  ghost predicate Reaches(store: TemplateStore, t: Template, si: LootStoreItem) {
    exists path :: OffersAlong(store, t, path, si)
  }

  /** The same for a call with a group number. */
  ghost predicate Supplies(store: TemplateStore, t: Template, groupId: nat, si: LootStoreItem) {
    if groupId > 0 then InGroupNr(t, groupId, si) else Reaches(store, t, si)
  }

  lemma OffersSupplies(store: TemplateStore, t: Template, si: LootStoreItem)
    requires Offers(store, t, si)
    ensures Supplies(store, t, 0, si)
  {
    assert OffersAlong(store, t, [], si);
  }

  /** Following one reference. */
  lemma ReferenceSupplies(store: TemplateStore, t: Template, e: LootStoreItem, si: LootStoreItem)
    requires e in t.entries && IsReference(e) && -e.mincountOrRef in store
    requires Supplies(store, store[-e.mincountOrRef], e.group, si)
    ensures Supplies(store, t, 0, si)
  {
    var r: nat := -e.mincountOrRef;
    if e.group > 0 {
      OffersSupplies(store, t, si);
    } else {
      var path :| OffersAlong(store, store[r], path, si);
      assert ([r] + path)[1..] == path;
      assert OffersAlong(store, t, [r] + path, si);
    }
  }

  /** And nothing else is supplied. */
  lemma SuppliesOnlyFromEntries(store: TemplateStore, t: Template, si: LootStoreItem)
    requires Supplies(store, t, 0, si)
    ensures Offers(store, t, si) || exists r :: RefersTo(store, t, r) && Supplies(store, store[r], 0, si)
  {
    var path :| OffersAlong(store, t, path, si);
    if path != [] {
      assert OffersAlong(store, store[path[0]], path[1..], si);
    }
  }

  // ---------- depth ----------

  /** No path of references from t is longer than n. */
  ghost predicate DepthAtMost(store: TemplateStore, t: Template, n: nat) {
    forall path :: Chain(store, t, path) ==> |path| <= n
  }

  lemma DepthShrinks(store: TemplateStore, t: Template, n: nat, r: nat)
    requires DepthAtMost(store, t, n) && RefersTo(store, t, r)
    ensures n > 0 && DepthAtMost(store, store[r], n - 1)
  {
    assert Chain(store, t, [r]) by { assert [r][1..] == []; }
    forall path | Chain(store, store[r], path)
      ensures |path| <= n - 1
    {
      assert ([r] + path)[1..] == path;
      assert Chain(store, t, [r] + path);
    }
  }

  /** No template of the store refers back to itself, directly or not. */
  ghost predicate Acyclic(store: TemplateStore) {
    forall id, path :: !Cycle(store, id, path)
  }

  predicate Cycle(store: TemplateStore, id: nat, path: seq<nat>) {
    id in store && path != [] && path[|path| - 1] == id && Chain(store, store[id], path)
  }

  lemma {:induction false} ChainParts(store: TemplateStore, t: Template, path: seq<nat>, i: nat)
    requires Chain(store, t, path) && i <= |path|
    ensures i > 0 ==> path[i - 1] in store && Chain(store, store[path[i - 1]], path[i..])
    ensures Chain(store, t, path[..i])
    ensures forall k :: 0 <= k < |path| ==> path[k] in store
    decreases path
  {
    if path != [] {
      ChainParts(store, store[path[0]], path[1..], if i == 0 then 0 else i - 1);
      if i > 1 {
        assert path[1..][i - 2] == path[i - 1] && path[1..][i - 1..] == path[i..];
      }
      if i > 0 {
        assert path[..i][1..] == path[1..][..i - 1];
      }
    }
  }

  lemma {:induction false} DistinctFit(path: seq<nat>, ids: set<nat>)
    requires forall k :: 0 <= k < |path| ==> path[k] in ids
    requires forall i, j :: 0 <= i < j < |path| ==> path[i] != path[j]
    ensures |path| <= |ids|
  {
    if path != [] {
      var last := path[|path| - 1];
      DistinctFit(path[..|path| - 1], ids - {last});
    }
  }

  lemma ChainSegment(store: TemplateStore, t: Template, path: seq<nat>, i: nat, j: nat)
    requires Chain(store, t, path) && i < j < |path|
    ensures path[i] in store && Chain(store, store[path[i]], path[i + 1..][..j - i])
  {
    ChainParts(store, t, path, i + 1);
    ChainParts(store, store[path[i]], path[i + 1..], j - i);
  }

  lemma ChainVisitsOnce(store: TemplateStore, t: Template, path: seq<nat>, i: nat, j: nat)
    requires Acyclic(store) && Chain(store, t, path) && i < j < |path|
    ensures path[i] != path[j]
  {
    ChainSegment(store, t, path, i, j);
    var loop := path[i + 1..][..j - i];
    assert loop[|loop| - 1] == path[j];
    assert !Cycle(store, path[i], loop);
  }

  /** Without cycles no path is longer than the store has templates, from any template at all. */
  lemma AcyclicIsShallow(store: TemplateStore, t: Template)
    requires Acyclic(store)
    ensures DepthAtMost(store, t, |store|)
  {
    forall path | Chain(store, t, path)
      ensures |path| <= |store|
    {
      ChainParts(store, t, path, 0);
      forall i, j | 0 <= i < j < |path|
        ensures path[i] != path[j]
      {
        ChainVisitsOnce(store, t, path, i, j);
      }
      DistinctFit(path, store.Keys);
    }
  }

  lemma {:induction false} ChainsJoin(store: TemplateStore, t: Template, a: seq<nat>, b: seq<nat>)
    requires Chain(store, t, a) && (a == [] ==> Chain(store, t, b))
    requires a != [] ==> a[|a| - 1] in store && Chain(store, store[a[|a| - 1]], b)
    ensures Chain(store, t, a + b)
    decreases a
  {
    if a == [] {
      assert a + b == b;
    } else {
      ChainsJoin(store, store[a[0]], a[1..], b);
      assert (a + b)[1..] == a[1..] + b;
    }
  }

  /** A cycle allows paths of every length, so then no depth bounds the expansion. */
  lemma {:induction false} CyclesAreBottomless(store: TemplateStore, id: nat, path: seq<nat>, n: nat)
    returns (long: seq<nat>)
    requires Cycle(store, id, path)
    ensures Chain(store, store[id], long) && |long| > n && long[|long| - 1] == id
  {
    if n == 0 {
      long := path;
    } else {
      var shorter := CyclesAreBottomless(store, id, path, n - 1);
      ChainsJoin(store, store[id], path, shorter);
      long := path + shorter;
    }
  }

  // ---------- quest drops ----------

  /** A quest item is within reach of the template. */
  ghost predicate CanDropQuest(store: TemplateStore, t: Template, groupId: nat) {
    exists si: LootStoreItem :: si.needsQuest && Supplies(store, t, groupId, si)
  }

  method GroupHasQuestDrop(g: LootGroup) returns (r: bool)
    ensures r <==> exists si: LootStoreItem :: si.needsQuest && InGroup(g, si)
  {
    var i := 0;
    while i < |g.explicitly|
      invariant 0 <= i <= |g.explicitly|
      invariant forall k :: 0 <= k < i ==> !g.explicitly[k].needsQuest
    {
      if g.explicitly[i].needsQuest {
        assert InGroup(g, g.explicitly[i]);
        return true;
      }
      i := i + 1;
    }
    i := 0;
    while i < |g.equal|
      invariant 0 <= i <= |g.equal|
      invariant forall k :: 0 <= k < i ==> !g.equal[k].needsQuest
    {
      if g.equal[i].needsQuest {
        assert InGroup(g, g.equal[i]);
        return true;
      }
      i := i + 1;
    }
    r := false;
  }

  /** Walks the template and its references; answers exactly whether a quest item is reachable through
      entries, groups and references, whatever its chance. */
  method HasQuestDrop(t: Template, store: TemplateStore, groupId: nat, ghost depth: nat) returns (r: bool)
    requires groupId == 0 ==> DepthAtMost(store, t, depth)
    ensures r <==> CanDropQuest(store, t, groupId)
    decreases depth, if groupId == 0 then 1 else 0
  {
    if groupId > 0 {
      if groupId > |t.groups| {
        return false;
      }
      r := GroupHasQuestDrop(t.groups[groupId - 1]);
      return;
    }
    var i := 0;
    while i < |t.entries|
      invariant 0 <= i <= |t.entries|
      invariant forall k :: 0 <= k < i ==> !EntryDropsQuest(store, t.entries[k])
    {
      var e := t.entries[i];
      if IsReference(e) {
        var id: nat := -e.mincountOrRef;
        if id in store {
          ghost var below := depth;
          if e.group == 0 {
            DepthShrinks(store, t, depth, id);
            below := depth - 1;
          }
          var found := HasQuestDrop(store[id], store, e.group, below);
          if found {
            ghost var si: LootStoreItem :| si.needsQuest && Supplies(store, store[id], e.group, si);
            ReferenceSupplies(store, t, e, si);
            return true;
          }
        }
      } else if e.needsQuest {
        OffersSupplies(store, t, e);
        return true;
      }
      i := i + 1;
    }
    i := 0;
    while i < |t.groups|
      invariant 0 <= i <= |t.groups|
      invariant forall k, si: LootStoreItem :: 0 <= k < i && si.needsQuest ==> !InGroup(t.groups[k], si)
    {
      r := GroupHasQuestDrop(t.groups[i]);
      if r {
        ghost var si: LootStoreItem :| si.needsQuest && InGroup(t.groups[i], si);
        assert InGroups(t, i, si);
        OffersSupplies(store, t, si);
        return;
      }
      i := i + 1;
    }
    NoQuestAnywhere(store, t);
    r := false;
  }

  /** The entry is a quest drop or refers to one. */
  ghost predicate EntryDropsQuest(store: TemplateStore, e: LootStoreItem) {
    if IsReference(e) then -e.mincountOrRef in store && CanDropQuest(store, store[-e.mincountOrRef], e.group)
    else e.needsQuest
  }

  lemma NoQuestAnywhere(store: TemplateStore, t: Template)
    requires forall k :: 0 <= k < |t.entries| ==> !EntryDropsQuest(store, t.entries[k])
    requires forall k, si: LootStoreItem :: 0 <= k < |t.groups| && si.needsQuest ==> !InGroup(t.groups[k], si)
    ensures !CanDropQuest(store, t, 0)
  {
    if si: LootStoreItem :| si.needsQuest && Supplies(store, t, 0, si) {
      SuppliesOnlyFromEntries(store, t, si);
      if Offers(store, t, si) {
        if e :| e in t.entries && IsReference(e) && e.group > 0 && -e.mincountOrRef in store
                && InGroupNr(store[-e.mincountOrRef], e.group, si) {
          assert Supplies(store, store[-e.mincountOrRef], e.group, si);
          assert EntryDropsQuest(store, e);
        }
      } else {
        var r :| RefersTo(store, t, r) && Supplies(store, store[r], 0, si);
        var e :| e in t.entries && IsReference(e) && -e.mincountOrRef == r && e.group == 0;
        assert EntryDropsQuest(store, e);
      }
    }
  }

  // ---------- asking another store ----------

  /** The template drops quest items by itself, without any reference. */
  ghost predicate DropsQuestItself(t: Template) {
    exists si: LootStoreItem ::
      si.needsQuest && ((si in t.entries && !IsReference(si)) || exists i: nat :: InGroups(t, i, si))
  }

  predicate HasReference(t: Template) { exists e <- t.entries :: IsReference(e) }

  lemma OwnDropsEverywhere(store: TemplateStore, t: Template)
    requires DropsQuestItself(t)
    ensures CanDropQuest(store, t, 0)
  {
    var si: LootStoreItem :|
      si.needsQuest && ((si in t.entries && !IsReference(si)) || exists i: nat :: InGroups(t, i, si));
    OffersSupplies(store, t, si);
  }

  lemma OnlyOwnDrops(store: TemplateStore, t: Template)
    requires !HasReference(t) || store == map[]
    requires CanDropQuest(store, t, 0)
    ensures DropsQuestItself(t)
  {
    var si: LootStoreItem :| si.needsQuest && Supplies(store, t, 0, si);
    SuppliesOnlyFromEntries(store, t, si);
  }

  /** A store in which what the entry refers to is a quest item. */
  function QuestStore(e: LootStoreItem, quest: LootStoreItem): TemplateStore
    requires IsReference(e)
  {
    map[-e.mincountOrRef := if e.group == 0 then Template([quest], [])
                            else Template([], seq(e.group, _ => LootGroup([quest], [], false)))]
  }

  lemma ReferenceMayDropQuest(t: Template, e: LootStoreItem)
    requires e in t.entries && IsReference(e)
    ensures exists ref :: CanDropQuest(ref, t, 0)
  {
    var quest := LootStoreItem(42, 100.0, 1, 0, true, 1, 0);
    var ref := QuestStore(e, quest);
    var target := ref[-e.mincountOrRef];
    if e.group == 0 {
      OffersSupplies(ref, target, quest);
    } else {
      assert InGroup(target.groups[e.group - 1], quest);
    }
    assert Supplies(ref, target, e.group, quest);
    ReferenceSupplies(ref, t, e, quest);
    assert CanDropQuest(ref, t, 0);
  }

  /** HaveQuestLootFor asks a template's own store, while Process follows references in the reference store.
      The answer is right for every reference store exactly if the template drops a quest item by itself or
      has no references; and it never denies a quest item that drops exactly if it is yes or there are no
      references. */
  lemma OwnStoreAnswers(own: TemplateStore, t: Template)
    ensures (forall ref :: CanDropQuest(ref, t, 0) <==> CanDropQuest(own, t, 0))
            <==> DropsQuestItself(t) || !HasReference(t)
    ensures (forall ref :: CanDropQuest(ref, t, 0) ==> CanDropQuest(own, t, 0))
            <==> CanDropQuest(own, t, 0) || !HasReference(t)
  {
    if DropsQuestItself(t) || !HasReference(t) {
      forall ref
        ensures CanDropQuest(ref, t, 0) <==> DropsQuestItself(t)
      {
        if DropsQuestItself(t) { OwnDropsEverywhere(ref, t); }
        if CanDropQuest(ref, t, 0) && !HasReference(t) { OnlyOwnDrops(ref, t); }
      }
    } else {
      if CanDropQuest(map[], t, 0) { OnlyOwnDrops(map[], t); }
      var e :| e in t.entries && IsReference(e);
      ReferenceMayDropQuest(t, e);
    }
  }

  /** A quest item behind a reference into the reference store is denied and dropped all the same. */
  lemma OtherStoreHidesQuests()
    ensures var quest := LootStoreItem(42, 100.0, 1, 0, true, 1, 0);
            var t := Template([LootStoreItem(0, 100.0, -7, 0, false, 1, 0)], []);
            !CanDropQuest(map[], t, 0) && Supplies(map[7 := Template([quest], [])], t, 0, quest)
  {
    var quest := LootStoreItem(42, 100.0, 1, 0, true, 1, 0);
    var e := LootStoreItem(0, 100.0, -7, 0, false, 1, 0);
    var t := Template([e], []);
    NoQuestAnywhere(map[], t);
    var store: TemplateStore := map[7 := Template([quest], [])];
    OffersSupplies(store, store[7], quest);
    ReferenceSupplies(store, t, e, quest);
  }
}
