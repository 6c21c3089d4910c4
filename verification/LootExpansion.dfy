/** The random expansion of a loot template into a loot (LootTemplate::Process). Rolls are free choices; a
    relation between a template and the items dropped says which outcomes are possible. */
module LootExpansion {
  import opened Basics
  import opened Loot
  import opened LootTemplate

  /** An item of a template that is dropped, and how many of it. */
  datatype Drop = Drop(si: LootStoreItem, count: nat)

  predicate CountFits(si: LootStoreItem, count: nat) {
    0 < si.mincountOrRef <= si.maxcount ==> si.mincountOrRef <= count <= si.maxcount
  }

  predicate OneDrop(drops: seq<Drop>, si: LootStoreItem) {
    |drops| == 1 && drops[0].si == si && CountFits(si, drops[0].count)
  }

  // ---------- possible outcomes ----------

  ghost predicate GroupOutcome(g: LootGroup, looters: Looters, drops: seq<Drop>) {
    exists roll: real, r: Option<LootStoreItem> :: 0.0 <= roll < 100.0 && Yields(g, looters, roll, r)
      && if r.None? then drops == [] else OneDrop(drops, r.value)
  }

  ghost predicate GroupsOutcome(t: Template, looters: Looters, n: nat, drops: seq<Drop>)
    requires n <= |t.groups|
  {
    if n == 0 then drops == []
    else
      exists a, b :: drops == a + b && GroupsOutcome(t, looters, n - 1, a) && GroupOutcome(t.groups[n - 1], looters, b)
  }

  /** What a call of Process drops. depth bounds the references that are followed. */
  ghost predicate CallOutcome(store: TemplateStore, t: Template, groupId: nat, looters: Looters, depth: nat,
                              drops: seq<Drop>)
    decreases depth, if groupId == 0 then 5 else 0
  {
    if groupId > |t.groups| then drops == []
    else if groupId > 0 then GroupOutcome(t.groups[groupId - 1], looters, drops)
    else
      exists a, b :: drops == a + b && EntriesOutcome(store, t, looters, depth, |t.entries|, a)
                     && GroupsOutcome(t, looters, |t.groups|, b)
  }

  /** The first n entries, in order. */
  ghost predicate EntriesOutcome(store: TemplateStore, t: Template, looters: Looters, depth: nat, n: nat,
                                 drops: seq<Drop>)
    requires n <= |t.entries|
    decreases depth, 4, n
  {
    if n == 0 then drops == []
    else
      exists a, b :: drops == a + b && EntriesOutcome(store, t, looters, depth, n - 1, a)
                     && EntryOutcome(store, t.entries[n - 1], looters, depth, b)
  }

  /** An entry may miss its chance unless it is certain, and is taken only if it has one. */
  ghost predicate EntryOutcome(store: TemplateStore, e: LootStoreItem, looters: Looters, depth: nat, drops: seq<Drop>)
    decreases depth, 3
  {
    (e.chance < 100.0 && drops == []) || (e.chance > 0.0 && TakenOutcome(store, e, looters, depth, drops))
  }

  ghost predicate TakenOutcome(store: TemplateStore, e: LootStoreItem, looters: Looters, depth: nat, drops: seq<Drop>)
    decreases depth, 2
  {
    if !IsReference(e) then OneDrop(drops, e)
    else if -e.mincountOrRef !in store then drops == []
    else if e.group > 0 then Repeated(store, store[-e.mincountOrRef], e.group, looters, depth, e.maxcount, drops)
    else depth > 0 && Repeated(store, store[-e.mincountOrRef], 0, looters, depth - 1, e.maxcount, drops)
  }

  /** The same call, several times. */
  ghost predicate Repeated(store: TemplateStore, t: Template, groupId: nat, looters: Looters, depth: nat, times: nat,
                           drops: seq<Drop>)
    decreases depth, if groupId == 0 then 6 else 1, times
  {
    if times == 0 then drops == []
    else
      exists a, b :: drops == a + b && Repeated(store, t, groupId, looters, depth, times - 1, a)
                     && CallOutcome(store, t, groupId, looters, depth, b)
  }

  // ---------- the expansion ----------

  /** The loot with all drops added, one after the other. */
  function AddAll(s: State, drops: seq<Drop>, partyLoot: nat -> bool): State {
    if drops == [] then s
    else
      var last := drops[|drops| - 1];
      AddItem(AddAll(s, drops[..|drops| - 1], partyLoot), last.si, partyLoot, last.count)
  }

  lemma {:induction false} AddAllJoins(s: State, a: seq<Drop>, b: seq<Drop>, partyLoot: nat -> bool)
    ensures AddAll(AddAll(s, a, partyLoot), b, partyLoot) == AddAll(s, a + b, partyLoot)
  {
    if b == [] {
      assert a + b == a;
    } else {
      AddAllJoins(s, a, b[..|b| - 1], partyLoot);
      assert (a + b)[..|a + b| - 1] == a + b[..|b| - 1];
    }
  }

  lemma AddOne(s: State, d: Drop, partyLoot: nat -> bool)
    ensures AddAll(s, [d], partyLoot) == AddItem(s, d.si, partyLoot, d.count)
  {
    assert [d][..0] == [];
  }

  method DropCount(si: LootStoreItem) returns (count: nat)
    ensures CountFits(si, count)
  {
    if 0 < si.mincountOrRef <= si.maxcount {
      assert CountFits(si, si.maxcount);
      count :| si.mincountOrRef <= count <= si.maxcount;
    } else {
      count := *;
    }
  }

  method AddDrop(loot: LootObject, si: LootStoreItem, partyLoot: nat -> bool) returns (ghost drops: seq<Drop>)
    modifies loot
    ensures OneDrop(drops, si) && loot.Fields() == AddAll(old(loot.Fields()), drops, partyLoot)
  {
    var count := DropCount(si);
    drops := [Drop(si, count)];
    AddOne(loot.Fields(), drops[0], partyLoot);
    loot.Add(si, partyLoot, count);
  }

  method GroupProcess(g: LootGroup, loot: LootObject, looters: Looters, partyLoot: nat -> bool)
    returns (ghost drops: seq<Drop>)
    modifies loot
    ensures GroupOutcome(g, looters, drops) && loot.Fields() == AddAll(old(loot.Fields()), drops, partyLoot)
  {
    var item, roll := RollGroup(g, looters);
    drops := [];
    if item.Some? {
      drops := AddDrop(loot, item.value, partyLoot);
    }
  }

  /** Whether an entry takes its chance, at a rate that is not negative. */
  method EntryRoll(e: LootStoreItem) returns (taken: bool)
    ensures e.chance >= 100.0 ==> taken
    ensures e.chance <= 0.0 ==> !taken
  {
    if e.chance >= 100.0 {
      return true;
    }
    var rate: real :| 0.0 <= rate;
    var roll: real :| 0.0 <= roll < 100.0;
    RateKeepsSign(e.chance, rate);
    taken := e.chance * rate > roll;
  }

  lemma RateKeepsSign(chance: real, rate: real)
    requires rate >= 0.0
    ensures chance <= 0.0 ==> chance * rate <= 0.0
  {
  }

  /** Calls Process for a reference as often as the entry says. */
  method FollowReference(e: LootStoreItem, store: TemplateStore, loot: LootObject, looters: Looters,
                         partyLoot: nat -> bool, ghost depth: nat) returns (ghost drops: seq<Drop>)
    requires IsReference(e) && -e.mincountOrRef in store
    requires e.group == 0 ==> depth > 0 && DepthAtMost(store, store[-e.mincountOrRef], depth - 1)
    modifies loot
    ensures TakenOutcome(store, e, looters, depth, drops)
    ensures loot.Fields() == AddAll(old(loot.Fields()), drops, partyLoot)
    decreases depth, 1
  {
    var id: nat := -e.mincountOrRef;
    ghost var below := if e.group == 0 then depth - 1 else depth;
    drops := [];
    var loop := 0;
    while loop < e.maxcount
      invariant 0 <= loop <= e.maxcount
      invariant Repeated(store, store[id], e.group, looters, below, loop, drops)
      invariant loot.Fields() == AddAll(old(loot.Fields()), drops, partyLoot)
    {
      ghost var more := Process(store[id], store, e.group, loot, looters, partyLoot, below);
      AddAllJoins(old(loot.Fields()), drops, more, partyLoot);
      drops := drops + more;
      loop := loop + 1;
    }
  }

  /** Rolls an entry and adds what it yields. */
  method ProcessEntry(e: LootStoreItem, t: Template, store: TemplateStore, loot: LootObject, looters: Looters,
                      partyLoot: nat -> bool, ghost depth: nat) returns (ghost drops: seq<Drop>)
    requires e in t.entries && DepthAtMost(store, t, depth)
    modifies loot
    ensures EntryOutcome(store, e, looters, depth, drops)
    ensures loot.Fields() == AddAll(old(loot.Fields()), drops, partyLoot)
    decreases depth, 2
  {
    drops := [];
    var taken := EntryRoll(e);
    if !taken {
      return;
    }
    if IsReference(e) {
      var id: nat := -e.mincountOrRef;
      if id in store {
        if e.group == 0 { DepthShrinks(store, t, depth, id); }
        drops := FollowReference(e, store, loot, looters, partyLoot, depth);
      }
    } else {
      drops := AddDrop(loot, e, partyLoot);
    }
  }

  /** With n entries processed, the loot s holds the drops. */
  ghost predicate EntriesAdded(store: TemplateStore, t: Template, looters: Looters, depth: nat, n: nat,
                               drops: seq<Drop>, start: State, s: State, partyLoot: nat -> bool)
  {
    n <= |t.entries| && EntriesOutcome(store, t, looters, depth, n, drops) && s == AddAll(start, drops, partyLoot)
  }

  lemma EntryAdded(store: TemplateStore, t: Template, looters: Looters, depth: nat, n: nat, drops: seq<Drop>,
                   more: seq<Drop>, start: State, before: State, after: State, partyLoot: nat -> bool)
    requires n < |t.entries| && EntriesAdded(store, t, looters, depth, n, drops, start, before, partyLoot)
    requires EntryOutcome(store, t.entries[n], looters, depth, more) && after == AddAll(before, more, partyLoot)
    ensures EntriesAdded(store, t, looters, depth, n + 1, drops + more, start, after, partyLoot)
  {
    AddAllJoins(start, drops, more, partyLoot);
  }

  /** The groups, one after the other. */
  method ProcessGroups(t: Template, loot: LootObject, looters: Looters, partyLoot: nat -> bool)
    returns (ghost drops: seq<Drop>)
    modifies loot
    ensures GroupsOutcome(t, looters, |t.groups|, drops)
    ensures loot.Fields() == AddAll(old(loot.Fields()), drops, partyLoot)
  {
    drops := [];
    var i := 0;
    while i < |t.groups|
      invariant 0 <= i <= |t.groups|
      invariant GroupsOutcome(t, looters, i, drops)
      invariant loot.Fields() == AddAll(old(loot.Fields()), drops, partyLoot)
    {
      ghost var more := GroupProcess(t.groups[i], loot, looters, partyLoot);
      AddAllJoins(old(loot.Fields()), drops, more, partyLoot);
      drops := drops + more;
      i := i + 1;
    }
  }

  /** The entries, one after the other. */
  method ProcessEntries(t: Template, store: TemplateStore, loot: LootObject, looters: Looters,
                        partyLoot: nat -> bool, ghost depth: nat) returns (ghost drops: seq<Drop>)
    requires DepthAtMost(store, t, depth)
    modifies loot
    ensures EntriesOutcome(store, t, looters, depth, |t.entries|, drops)
    ensures loot.Fields() == AddAll(old(loot.Fields()), drops, partyLoot)
    decreases depth, 3
  {
    drops := [];
    ghost var start := loot.Fields();
    var i := 0;
    while i < |t.entries|
      invariant 0 <= i <= |t.entries|
      invariant EntriesAdded(store, t, looters, depth, i, drops, start, loot.Fields(), partyLoot)
    {
      ghost var before := loot.Fields();
      ghost var more := ProcessEntry(t.entries[i], t, store, loot, looters, partyLoot, depth);
      EntryAdded(store, t, looters, depth, i, drops, more, start, before, loot.Fields(), partyLoot);
      drops := drops + more;
      i := i + 1;
    }
  }

  lemma CallNext(store: TemplateStore, t: Template, looters: Looters, depth: nat, a: seq<Drop>, b: seq<Drop>)
    requires EntriesOutcome(store, t, looters, depth, |t.entries|, a) && GroupsOutcome(t, looters, |t.groups|, b)
    ensures CallOutcome(store, t, 0, looters, depth, a + b)
  {
  }

  /** Expands the template. With a store whose references end, it terminates for all rolls. */
  method Process(t: Template, store: TemplateStore, groupId: nat, loot: LootObject, looters: Looters,
                 partyLoot: nat -> bool, ghost depth: nat) returns (ghost drops: seq<Drop>)
    requires groupId == 0 ==> DepthAtMost(store, t, depth)
    modifies loot
    ensures CallOutcome(store, t, groupId, looters, depth, drops)
    ensures loot.Fields() == AddAll(old(loot.Fields()), drops, partyLoot)
    decreases depth, if groupId == 0 then 4 else 0
  {
    drops := [];
    if groupId > 0 {
      if groupId > |t.groups| {
        return;
      }
      drops := GroupProcess(t.groups[groupId - 1], loot, looters, partyLoot);
      return;
    }
    ghost var plain := ProcessEntries(t, store, loot, looters, partyLoot, depth);
    ghost var grouped := ProcessGroups(t, loot, looters, partyLoot);
    AddAllJoins(old(loot.Fields()), plain, grouped, partyLoot);
    CallNext(store, t, looters, depth, plain, grouped);
    drops := plain + grouped;
  }

  // ---------- what can be dropped ----------

  /** The supply of a call, as a function on items. */
  ghost function SupplyOf(store: TemplateStore, t: Template, groupId: nat): LootStoreItem -> bool {
    si => Supplies(store, t, groupId, si)
  }

  /** All drops come from the supply, in fitting numbers. */
  ghost predicate From(drops: seq<Drop>, supply: LootStoreItem -> bool) {
    forall d <- drops :: supply(d.si) && CountFits(d.si, d.count)
  }

  lemma GroupIsFrom(g: LootGroup, looters: Looters, drops: seq<Drop>, supply: LootStoreItem -> bool)
    requires GroupOutcome(g, looters, drops) && forall si :: InGroup(g, si) ==> supply(si)
    ensures From(drops, supply)
  {
    var roll: real, r: Option<LootStoreItem> :| 0.0 <= roll < 100.0 && Yields(g, looters, roll, r)
      && if r.None? then drops == [] else OneDrop(drops, r.value);
    ghost var k := if g.explicitly == [] then None else PickFrom(g.explicitly, 0, roll);
    if r.Some? { assert InGroup(g, r.value); }
  }

  lemma {:induction false} GroupsAreFrom(t: Template, looters: Looters, n: nat, drops: seq<Drop>,
                                         supply: LootStoreItem -> bool)
    requires n <= |t.groups| && GroupsOutcome(t, looters, n, drops)
    requires forall i, si :: 0 <= i < |t.groups| && InGroup(t.groups[i], si) ==> supply(si)
    ensures From(drops, supply)
  {
    if n > 0 {
      var a, b :| drops == a + b && GroupsOutcome(t, looters, n - 1, a) && GroupOutcome(t.groups[n - 1], looters, b);
      GroupsAreFrom(t, looters, n - 1, a, supply);
      GroupIsFrom(t.groups[n - 1], looters, b, supply);
    }
  }

  lemma GroupWidens(store: TemplateStore, t: Template, i: nat, si: LootStoreItem)
    requires i < |t.groups| && InGroup(t.groups[i], si)
    ensures Supplies(store, t, 0, si) && Supplies(store, t, i + 1, si)
  {
    assert InGroups(t, i, si);
    OffersSupplies(store, t, si);
  }

  /** Nothing is dropped that the template does not supply. */
  lemma {:induction false} CallIsFrom(store: TemplateStore, t: Template, groupId: nat, looters: Looters, depth: nat,
                                      drops: seq<Drop>)
    requires CallOutcome(store, t, groupId, looters, depth, drops)
    ensures From(drops, SupplyOf(store, t, groupId))
    decreases depth, if groupId == 0 then 5 else 0
  {
    if 0 < groupId <= |t.groups| {
      GroupIsFrom(t.groups[groupId - 1], looters, drops, SupplyOf(store, t, groupId));
    } else if groupId == 0 {
      var a, b :| drops == a + b && EntriesOutcome(store, t, looters, depth, |t.entries|, a)
                  && GroupsOutcome(t, looters, |t.groups|, b);
      EntriesAreFrom(store, t, looters, depth, |t.entries|, a);
      forall i, si | 0 <= i < |t.groups| && InGroup(t.groups[i], si)
        ensures SupplyOf(store, t, 0)(si)
      {
        GroupWidens(store, t, i, si);
      }
      GroupsAreFrom(t, looters, |t.groups|, b, SupplyOf(store, t, 0));
    }
  }

  lemma {:induction false} EntriesAreFrom(store: TemplateStore, t: Template, looters: Looters, depth: nat, n: nat,
                                          drops: seq<Drop>)
    requires n <= |t.entries| && EntriesOutcome(store, t, looters, depth, n, drops)
    ensures From(drops, SupplyOf(store, t, 0))
    decreases depth, 4, n
  {
    if n > 0 {
      var e := t.entries[n - 1];
      var a, b :| drops == a + b && EntriesOutcome(store, t, looters, depth, n - 1, a)
                  && EntryOutcome(store, e, looters, depth, b);
      EntriesAreFrom(store, t, looters, depth, n - 1, a);
      if b != [] { TakenIsFrom(store, t, e, looters, depth, b); }
    }
  }

  lemma {:induction false} TakenIsFrom(store: TemplateStore, t: Template, e: LootStoreItem, looters: Looters,
                                       depth: nat, drops: seq<Drop>)
    requires e in t.entries && TakenOutcome(store, e, looters, depth, drops)
    ensures From(drops, SupplyOf(store, t, 0))
    decreases depth, 3
  {
    if !IsReference(e) {
      OffersSupplies(store, t, e);
    } else if -e.mincountOrRef in store {
      var r := store[-e.mincountOrRef];
      RepeatedIsFrom(store, r, e.group, looters, if e.group > 0 then depth else depth - 1, e.maxcount, drops);
      forall d <- drops
        ensures Supplies(store, t, 0, d.si)
      {
        ReferenceSupplies(store, t, e, d.si);
      }
    }
  }

  lemma {:induction false} RepeatedIsFrom(store: TemplateStore, t: Template, groupId: nat, looters: Looters, depth: nat,
                                          times: nat, drops: seq<Drop>)
    requires Repeated(store, t, groupId, looters, depth, times, drops)
    ensures From(drops, SupplyOf(store, t, groupId))
    decreases depth, if groupId == 0 then 6 else 1, times
  {
    if times > 0 {
      var a, b :| drops == a + b && Repeated(store, t, groupId, looters, depth, times - 1, a)
                  && CallOutcome(store, t, groupId, looters, depth, b);
      RepeatedIsFrom(store, t, groupId, looters, depth, times - 1, a);
      CallIsFrom(store, t, groupId, looters, depth, b);
    }
  }

  // ---------- groups that never miss ----------

  lemma {:induction false} PickMisses(items: seq<LootStoreItem>, i: nat, roll: real)
    requires i <= |items| && forall j :: 0 <= j < |items| ==> items[j].chance > 0.0
    ensures PickFrom(items, i, roll - PrefixChance(items, i)).None? <==>
              (forall j :: i <= j < |items| ==> items[j].chance < 100.0)
              && (i < |items| ==> roll >= PrefixChance(items, |items|))
    decreases |items| - i
  {
    if i < |items| {
      PrefixGrows(items, i + 1, |items|);
      assert roll - PrefixChance(items, i) - items[i].chance == roll - PrefixChance(items, i + 1);
      PickMisses(items, i + 1, roll);
    }
  }

  /** A roll below 100 always finds an item. */
  predicate NeverMisses(items: seq<LootStoreItem>) {
    PrefixChance(items, |items|) >= 100.0 || exists x <- items :: x.chance >= 100.0
  }

  lemma RollThatMisses(items: seq<LootStoreItem>) returns (roll: real)
    requires forall x <- items :: x.chance > 0.0
    requires !NeverMisses(items)
    ensures 0.0 <= roll < 100.0 && (items == [] || PickFrom(items, 0, roll).None?)
  {
    PrefixGrows(items, 0, |items|);
    roll := PrefixChance(items, |items|);
    PickMisses(items, 0, roll);
  }

  /** A group yields an item for every roll exactly if its chances come to 100 or one of them does, or some
      equal-chanced item suits the looters. */
  lemma GroupAlwaysYields(g: LootGroup, looters: Looters)
    requires forall x <- g.explicitly :: x.chance > 0.0
    ensures (forall drops :: GroupOutcome(g, looters, drops) ==> drops != []) <==>
              || NeverMisses(g.explicitly)
              || exists x <- g.equal :: !g.conditionalEqual || looters.crossFaction || looters.suits(x)
  {
    if NeverMisses(g.explicitly) {
      forall roll: real | 0.0 <= roll < 100.0
        ensures g.explicitly != [] && PickFrom(g.explicitly, 0, roll).Some?
      {
        PickMisses(g.explicitly, 0, roll);
      }
    } else if forall x <- g.equal :: !(!g.conditionalEqual || looters.crossFaction || looters.suits(x)) {
      var roll := RollThatMisses(g.explicitly);
      assert Yields(g, looters, roll, None);
      assert GroupOutcome(g, looters, []);
    }
  }

  // ---------- how often it is dropped ----------

  function Dropped(drops: seq<Drop>, si: LootStoreItem): nat {
    if drops == [] then 0
    else Dropped(drops[..|drops| - 1], si) + if drops[|drops| - 1].si == si then 1 else 0
  }

  lemma {:induction false} DroppedJoins(a: seq<Drop>, b: seq<Drop>, si: LootStoreItem)
    ensures Dropped(a + b, si) == Dropped(a, si) + Dropped(b, si)
  {
    if b == [] {
      assert a + b == a;
    } else {
      DroppedJoins(a, b[..|b| - 1], si);
      assert (a + b)[..|a + b| - 1] == a + b[..|b| - 1];
    }
  }

  lemma {:induction false} DroppedIsThere(drops: seq<Drop>, si: LootStoreItem)
    ensures Dropped(drops, si) > 0 <==> exists d <- drops :: d.si == si
  {
    if drops != [] {
      DroppedIsThere(drops[..|drops| - 1], si);
      assert drops == drops[..|drops| - 1] + [drops[|drops| - 1]];
    }
  }

  /** Least or most drops of an item: certain entries and groups against all that have a chance. */
  datatype Side = Least | Most

  function Many(times: nat, n: nat): nat { if times == 0 then 0 else Many(times - 1, n) + n }

  /** A group whose first item with a chance is certain always yields it. */
  function GroupBound(g: LootGroup, si: LootStoreItem, side: Side): nat {
    match side
    case Least => if g.explicitly != [] && g.explicitly[0].chance >= 100.0 && g.explicitly[0] == si then 1 else 0
    case Most => if InGroup(g, si) then 1 else 0
  }

  function GroupsBound(t: Template, n: nat, si: LootStoreItem, side: Side): nat
    requires n <= |t.groups|
  {
    if n == 0 then 0 else GroupsBound(t, n - 1, si, side) + GroupBound(t.groups[n - 1], si, side)
  }

  function CallBound(store: TemplateStore, t: Template, groupId: nat, depth: nat, si: LootStoreItem, side: Side): nat
    decreases depth, if groupId == 0 then 5 else 0
  {
    if groupId > |t.groups| then 0
    else if groupId > 0 then GroupBound(t.groups[groupId - 1], si, side)
    else EntriesBound(store, t, depth, |t.entries|, si, side) + GroupsBound(t, |t.groups|, si, side)
  }

  function EntriesBound(store: TemplateStore, t: Template, depth: nat, n: nat, si: LootStoreItem, side: Side): nat
    requires n <= |t.entries|
    decreases depth, 4, n
  {
    if n == 0 then 0
    else
      EntriesBound(store, t, depth, n - 1, si, side) +
      if t.entries[n - 1].chance >= 100.0 || (side == Most && t.entries[n - 1].chance > 0.0)
      then TakenBound(store, t.entries[n - 1], depth, si, side) else 0
  }

  /** A plain entry drops itself, a reference what the template it names does, maxcount times. */
  function TakenBound(store: TemplateStore, e: LootStoreItem, depth: nat, si: LootStoreItem, side: Side): nat
    decreases depth, 3
  {
    if !IsReference(e) then (if e == si then 1 else 0)
    else if -e.mincountOrRef !in store then 0
    else if e.group > 0 then Many(e.maxcount, CallBound(store, store[-e.mincountOrRef], e.group, depth, si, side))
    else if depth == 0 then 0
    else Many(e.maxcount, CallBound(store, store[-e.mincountOrRef], 0, depth - 1, si, side))
  }

  /** The number lies between the least and the most. */
  predicate Bounded(n: nat, least: nat, most: nat) { least <= n <= most }

  lemma GroupDrops(g: LootGroup, looters: Looters, drops: seq<Drop>, si: LootStoreItem)
    requires GroupOutcome(g, looters, drops)
    ensures Bounded(Dropped(drops, si), GroupBound(g, si, Least), GroupBound(g, si, Most))
  {
    var roll: real, r: Option<LootStoreItem> :| 0.0 <= roll < 100.0 && Yields(g, looters, roll, r)
      && if r.None? then drops == [] else OneDrop(drops, r.value);
    ghost var k := if g.explicitly == [] then None else PickFrom(g.explicitly, 0, roll);
    if r.Some? {
      assert drops[..0] == [];
      assert InGroup(g, r.value);
    }
  }

  lemma {:induction false} GroupsDrop(t: Template, looters: Looters, n: nat, drops: seq<Drop>, si: LootStoreItem)
    requires n <= |t.groups| && GroupsOutcome(t, looters, n, drops)
    ensures Bounded(Dropped(drops, si), GroupsBound(t, n, si, Least), GroupsBound(t, n, si, Most))
  {
    if n > 0 {
      var a, b :| drops == a + b && GroupsOutcome(t, looters, n - 1, a) && GroupOutcome(t.groups[n - 1], looters, b);
      DroppedJoins(a, b, si);
      GroupsDrop(t, looters, n - 1, a, si);
      GroupDrops(t.groups[n - 1], looters, b, si);
    }
  }

  /** Every certain entry of a template, and of those that certain references name as often as they say, drops its
      item; and no item is dropped more often than all that have a chance allow. */
  lemma {:induction false} CallDrops(store: TemplateStore, t: Template, groupId: nat, looters: Looters, depth: nat,
                                     drops: seq<Drop>, si: LootStoreItem)
    requires CallOutcome(store, t, groupId, looters, depth, drops)
    ensures Bounded(Dropped(drops, si), CallBound(store, t, groupId, depth, si, Least),
                    CallBound(store, t, groupId, depth, si, Most))
    decreases depth, if groupId == 0 then 5 else 0
  {
    if 0 < groupId <= |t.groups| {
      GroupDrops(t.groups[groupId - 1], looters, drops, si);
    } else if groupId == 0 {
      var a, b :| drops == a + b && EntriesOutcome(store, t, looters, depth, |t.entries|, a)
                  && GroupsOutcome(t, looters, |t.groups|, b);
      DroppedJoins(a, b, si);
      EntriesDrop(store, t, looters, depth, |t.entries|, a, si);
      GroupsDrop(t, looters, |t.groups|, b, si);
    }
  }

  lemma {:induction false} EntriesDrop(store: TemplateStore, t: Template, looters: Looters, depth: nat, n: nat,
                                       drops: seq<Drop>, si: LootStoreItem)
    requires n <= |t.entries| && EntriesOutcome(store, t, looters, depth, n, drops)
    ensures Bounded(Dropped(drops, si), EntriesBound(store, t, depth, n, si, Least),
                    EntriesBound(store, t, depth, n, si, Most))
    decreases depth, 4, n
  {
    if n > 0 {
      var e := t.entries[n - 1];
      var a, b :| drops == a + b && EntriesOutcome(store, t, looters, depth, n - 1, a)
                  && EntryOutcome(store, e, looters, depth, b);
      DroppedJoins(a, b, si);
      EntriesDrop(store, t, looters, depth, n - 1, a, si);
      if e.chance > 0.0 && TakenOutcome(store, e, looters, depth, b) {
        TakenDrops(store, e, looters, depth, b, si);
      }
    }
  }

  lemma {:induction false} TakenDrops(store: TemplateStore, e: LootStoreItem, looters: Looters, depth: nat,
                                      drops: seq<Drop>, si: LootStoreItem)
    requires TakenOutcome(store, e, looters, depth, drops)
    ensures Bounded(Dropped(drops, si), TakenBound(store, e, depth, si, Least), TakenBound(store, e, depth, si, Most))
    decreases depth, 3
  {
    if !IsReference(e) {
      assert drops[..0] == [];
    } else if -e.mincountOrRef in store {
      var r := store[-e.mincountOrRef];
      RepeatedDrops(store, r, e.group, looters, if e.group > 0 then depth else depth - 1, e.maxcount, drops, si);
    }
  }

  lemma {:induction false} RepeatedDrops(store: TemplateStore, t: Template, groupId: nat, looters: Looters, depth: nat,
                                         times: nat, drops: seq<Drop>, si: LootStoreItem)
    requires Repeated(store, t, groupId, looters, depth, times, drops)
    ensures Bounded(Dropped(drops, si), Many(times, CallBound(store, t, groupId, depth, si, Least)),
                    Many(times, CallBound(store, t, groupId, depth, si, Most)))
    decreases depth, if groupId == 0 then 6 else 1, times
  {
    if times > 0 {
      var a, b :| drops == a + b && Repeated(store, t, groupId, looters, depth, times - 1, a)
                  && CallOutcome(store, t, groupId, looters, depth, b);
      DroppedJoins(a, b, si);
      RepeatedDrops(store, t, groupId, looters, depth, times - 1, a, si);
      CallDrops(store, t, groupId, looters, depth, b, si);
    }
  }

  // ---------- what becomes of the loot ----------

  /** The items made from the drops, quest items or others. */
  function Made(drops: seq<Drop>, quest: bool, partyLoot: nat -> bool): seq<LootItem> {
    if drops == [] then []
    else
      var last := drops[|drops| - 1];
      Made(drops[..|drops| - 1], quest, partyLoot)
      + if last.si.needsQuest == quest then [NewItem(last.si, partyLoot, last.count)] else []
  }

  function Capped(items: seq<LootItem>, most: nat): seq<LootItem> { if |items| <= most then items else items[..most] }

  predicate WithinCapacity(s: State) { |s.items| <= MAX_NR_LOOT_ITEMS && |s.questItems| <= MAX_NR_QUEST_ITEMS }

  lemma CappedOnce(items: seq<LootItem>, made: seq<LootItem>, x: LootItem, most: nat)
    requires |items| <= most
    ensures Capped(items + (made + [x]), most) ==
            if |Capped(items + made, most)| < most then Capped(items + made, most) + [x] else Capped(items + made, most)
  {
    Associate(items, made, [x]);
  }

  /** The drops are appended in order, as many as there is room for. */
  lemma {:induction false} AddAllAppends(s: State, drops: seq<Drop>, partyLoot: nat -> bool)
    requires WithinCapacity(s)
    ensures var b := AddAll(s, drops, partyLoot);
            && b.items == Capped(s.items + Made(drops, false, partyLoot), MAX_NR_LOOT_ITEMS)
            && b.questItems == Capped(s.questItems + Made(drops, true, partyLoot), MAX_NR_QUEST_ITEMS)
            && b.playerQuest == s.playerQuest && b.playerFFA == s.playerFFA
            && b.playerConditional == s.playerConditional
  {
    if drops == [] {
      assert s.items + [] == s.items && s.questItems + [] == s.questItems;
    } else {
      var before, last := drops[..|drops| - 1], drops[|drops| - 1];
      AddAllAppends(s, before, partyLoot);
      var x := NewItem(last.si, partyLoot, last.count);
      if last.si.needsQuest {
        CappedOnce(s.questItems, Made(before, true, partyLoot), x, MAX_NR_QUEST_ITEMS);
        assert Made(before, false, partyLoot) + [] == Made(before, false, partyLoot);
      } else {
        CappedOnce(s.items, Made(before, false, partyLoot), x, MAX_NR_LOOT_ITEMS);
        assert Made(before, true, partyLoot) + [] == Made(before, true, partyLoot);
      }
    }
  }

  /** The counter keeps up. */
  lemma {:induction false} AddAllBalances(s: State, drops: seq<Drop>, partyLoot: nat -> bool)
    requires Balanced(s)
    ensures Balanced(AddAll(s, drops, partyLoot))
  {
    if drops != [] {
      var last := drops[|drops| - 1];
      AddAllBalances(s, drops[..|drops| - 1], partyLoot);
      AddItemBalances(AddAll(s, drops[..|drops| - 1], partyLoot), last.si, partyLoot, last.count);
    }
  }

  /** A loot item made from a supplied store item. */
  ghost predicate MadeFrom(x: LootItem, supply: LootStoreItem -> bool, partyLoot: nat -> bool) {
    exists si, count :: supply(si) && CountFits(si, count) && x == NewItem(si, partyLoot, count)
  }

  lemma {:induction false} MadeIsFrom(drops: seq<Drop>, quest: bool, supply: LootStoreItem -> bool,
                                      partyLoot: nat -> bool)
    requires From(drops, supply)
    ensures forall x <- Made(drops, quest, partyLoot) :: x.needsQuest == quest && MadeFrom(x, supply, partyLoot)
  {
    if drops != [] {
      MadeIsFrom(drops[..|drops| - 1], quest, supply, partyLoot);
      assert drops[|drops| - 1] in drops;
    }
  }

  /** b is a with made items appended, within the capacities; players' lists are untouched and a
      balanced counter stays balanced. */
  ghost predicate Grows(a: State, b: State, supply: LootStoreItem -> bool, partyLoot: nat -> bool) {
    && a.items <= b.items && a.questItems <= b.questItems
    && WithinCapacity(b)
    && (forall i :: |a.items| <= i < |b.items| ==> !b.items[i].needsQuest && MadeFrom(b.items[i], supply, partyLoot))
    && (forall i :: |a.questItems| <= i < |b.questItems| ==>
          b.questItems[i].needsQuest && MadeFrom(b.questItems[i], supply, partyLoot))
    && b.playerQuest == a.playerQuest && b.playerFFA == a.playerFFA && b.playerConditional == a.playerConditional
    && (Balanced(a) ==> Balanced(b))
  }

  lemma CappedExtends(items: seq<LootItem>, made: seq<LootItem>, most: nat)
    requires |items| <= most
    ensures var c := Capped(items + made, most);
            items <= c && |c| <= most && forall i :: |items| <= i < |c| ==> c[i] in made
  {
  }

  lemma AddAllGrows(a: State, drops: seq<Drop>, supply: LootStoreItem -> bool, partyLoot: nat -> bool)
    requires WithinCapacity(a) && From(drops, supply)
    ensures Grows(a, AddAll(a, drops, partyLoot), supply, partyLoot)
  {
    AddAllAppends(a, drops, partyLoot);
    MadeIsFrom(drops, false, supply, partyLoot);
    MadeIsFrom(drops, true, supply, partyLoot);
    CappedExtends(a.items, Made(drops, false, partyLoot), MAX_NR_LOOT_ITEMS);
    CappedExtends(a.questItems, Made(drops, true, partyLoot), MAX_NR_QUEST_ITEMS);
    if Balanced(a) { AddAllBalances(a, drops, partyLoot); }
  }

  lemma {:induction false} DropIsMade(drops: seq<Drop>, d: Drop, partyLoot: nat -> bool)
    requires d in drops
    ensures NewItem(d.si, partyLoot, d.count) in Made(drops, d.si.needsQuest, partyLoot)
  {
    if d != drops[|drops| - 1] {
      DropIsMade(drops[..|drops| - 1], d, partyLoot);
    }
  }

  /** There is an item made from si among the new ones. */
  ghost predicate IsAdded(before: seq<LootItem>, after: seq<LootItem>, si: LootStoreItem, partyLoot: nat -> bool) {
    exists i, count :: |before| <= i < |after| && CountFits(si, count) && after[i] == NewItem(si, partyLoot, count)
  }

  lemma CappedShows(items: seq<LootItem>, made: seq<LootItem>, x: LootItem, most: nat)
    requires |items| <= most && x in made
    ensures var c := Capped(items + made, most); |c| == most || exists i :: |items| <= i < |c| && c[i] == x
  {
    var k :| 0 <= k < |made| && made[k] == x;
    if |items + made| < most { assert (items + made)[|items| + k] == x; }
  }

  /** An item that is sure to drop is in the loot afterwards, or the list it belongs to is full. */
  lemma CertainItemIsAdded(store: TemplateStore, t: Template, groupId: nat, looters: Looters, depth: nat,
                           drops: seq<Drop>, s: State, si: LootStoreItem, partyLoot: nat -> bool)
    requires WithinCapacity(s) && CallOutcome(store, t, groupId, looters, depth, drops)
    requires CallBound(store, t, groupId, depth, si, Least) > 0
    ensures var b := AddAll(s, drops, partyLoot);
            if si.needsQuest then
              |b.questItems| == MAX_NR_QUEST_ITEMS || IsAdded(s.questItems, b.questItems, si, partyLoot)
            else
              |b.items| == MAX_NR_LOOT_ITEMS || IsAdded(s.items, b.items, si, partyLoot)
  {
    CallDrops(store, t, groupId, looters, depth, drops, si);
    DroppedIsThere(drops, si);
    var d :| d in drops && d.si == si;
    CallIsFrom(store, t, groupId, looters, depth, drops);
    DropIsMade(drops, d, partyLoot);
    AddAllAppends(s, drops, partyLoot);
    var x := NewItem(si, partyLoot, d.count);
    if si.needsQuest {
      CappedShows(s.questItems, Made(drops, true, partyLoot), x, MAX_NR_QUEST_ITEMS);
    } else {
      CappedShows(s.items, Made(drops, false, partyLoot), x, MAX_NR_LOOT_ITEMS);
    }
  }

  lemma {:induction false} CertainEntryIsBound(store: TemplateStore, t: Template, depth: nat, n: nat, k: nat)
    requires k < n <= |t.entries| && t.entries[k].chance >= 100.0
    ensures EntriesBound(store, t, depth, n, t.entries[k], Least)
            >= TakenBound(store, t.entries[k], depth, t.entries[k], Least)
    decreases n
  {
    if k < n - 1 {
      CertainEntryIsBound(store, t, depth, n - 1, k);
    }
  }

  /** In particular every plain entry of the template itself with a chance of 100. */
  lemma CertainEntryDrops(store: TemplateStore, t: Template, looters: Looters, depth: nat, drops: seq<Drop>,
                          e: LootStoreItem)
    requires CallOutcome(store, t, 0, looters, depth, drops)
    requires e in t.entries && !IsReference(e) && e.chance >= 100.0
    ensures CallBound(store, t, 0, depth, e, Least) > 0 && exists d <- drops :: d.si == e
  {
    var k :| 0 <= k < |t.entries| && t.entries[k] == e;
    CertainEntryIsBound(store, t, depth, |t.entries|, k);
    CallDrops(store, t, 0, looters, depth, drops, e);
    DroppedIsThere(drops, e);
  }

  /** A whole FillLoot expansion from an acyclic store: capacities hold, every item comes from the
      template, and a template without quest drops leaves the quest items alone. */
  method Expand(t: Template, store: TemplateStore, loot: LootObject, looters: Looters, partyLoot: nat -> bool)
    returns (ghost drops: seq<Drop>)
    requires Acyclic(store) && WithinCapacity(loot.Fields())
    modifies loot
    ensures CallOutcome(store, t, 0, looters, |store|, drops)
    ensures loot.Fields() == AddAll(old(loot.Fields()), drops, partyLoot)
    ensures Grows(old(loot.Fields()), loot.Fields(), SupplyOf(store, t, 0), partyLoot)
    ensures !CanDropQuest(store, t, 0) ==> loot.questItems == old(loot.questItems)
  {
    AcyclicIsShallow(store, t);
    ghost var before := loot.Fields();
    drops := Process(t, store, 0, loot, looters, partyLoot, |store|);
    CallIsFrom(store, t, 0, looters, |store|, drops);
    AddAllGrows(before, drops, SupplyOf(store, t, 0), partyLoot);
    if !CanDropQuest(store, t, 0) { NoQuestGrowth(before, loot.Fields(), store, t, partyLoot); }
  }

  lemma NoQuestGrowth(a: State, b: State, store: TemplateStore, t: Template, partyLoot: nat -> bool)
    requires Grows(a, b, SupplyOf(store, t, 0), partyLoot) && !CanDropQuest(store, t, 0)
    ensures b.questItems == a.questItems
  {
    assert |b.questItems| > |a.questItems| ==>
        MadeFrom(b.questItems[|a.questItems|], SupplyOf(store, t, 0), partyLoot);
  }
}
