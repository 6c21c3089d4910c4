/** Reputation of one player (ReputationMgr): clamped standings with spillover, guarded flags, and a
    write-back cache over the character_reputation rows. Standings are unbounded integers. The 32-bit
    flag word is split into the bits the code looks at and the rest of the word. */
module Reputation {
  import opened Runs

  // ---------- ranks ----------

  const POINTS_IN_RANK: seq<int> := [36000, 3000, 3000, 3000, 6000, 12000, 21000, 1000]
  const REPUTATION_CAP := 42999
  const REPUTATION_BOTTOM := -42000
  const HATED: nat := 0
  const HOSTILE: nat := 1

  type Rank = r: nat | r < 8

  /** Least standing of a rank: the cap minus the points of the ranks from r up. */
  function LowerLimit(r: nat): int
    requires r <= 8
    decreases 8 - r
  {
    if r == 8 then REPUTATION_CAP + 1 else LowerLimit(r + 1) - POINTS_IN_RANK[r]
  }

  lemma Limits()
    ensures LowerLimit(8) == 43000 && LowerLimit(7) == 42000 && LowerLimit(6) == 21000 && LowerLimit(5) == 9000
    ensures LowerLimit(4) == 3000 && LowerLimit(3) == 0 && LowerLimit(2) == -3000 && LowerLimit(1) == -6000
    ensures LowerLimit(0) == REPUTATION_BOTTOM
  {
    assert LowerLimit(8) == 43000;
    assert LowerLimit(7) == 42000;
    assert LowerLimit(6) == 21000;
    assert LowerLimit(5) == 9000;
    assert LowerLimit(4) == 3000;
    assert LowerLimit(3) == 0;
    assert LowerLimit(2) == -3000;
    assert LowerLimit(1) == -6000;
  }

  function RankOf(standing: int): Rank {
    if standing >= 42000 then 7 else if standing >= 21000 then 6 else if standing >= 9000 then 5
    else if standing >= 3000 then 4 else if standing >= 0 then 3 else if standing >= -3000 then 2
    else if standing >= -6000 then 1 else 0
  }

  method ReputationToRank(standing: int) returns (rank: Rank)
    ensures rank == RankOf(standing)
  {
    Limits();
    var limit := REPUTATION_CAP + 1;
    var i := 7;
    while i >= 0
      invariant -1 <= i <= 7 && limit == LowerLimit(i + 1)
      invariant standing < limit || i == 7
      decreases i
    {
      limit := limit - POINTS_IN_RANK[i];
      if standing >= limit {
        return i;
      }
      i := i - 1;
    }
    rank := 0;
  }

  /** Exactly the standings from the bottom to the cap are split into the eight ranks' intervals. */
  lemma RanksPartition(standing: int, r: Rank)
    ensures REPUTATION_BOTTOM <= standing <= REPUTATION_CAP ==>
              (RankOf(standing) == r <==> LowerLimit(r) <= standing < LowerLimit(r + 1))
    ensures !(REPUTATION_BOTTOM <= standing <= REPUTATION_CAP) ==> !(LowerLimit(r) <= standing < LowerLimit(r + 1))
  {
    Limits();
    assert r in {0, 1, 2, 3, 4, 5, 6, 7};
  }

  // ---------- one faction ----------

  datatype Flags = Flags(
    visible: bool, atWar: bool, hidden: bool, invisibleForced: bool, peaceForced: bool, inactive: bool, other: nat)
  {
    predicate Concealed() { hidden || invisibleForced }
  }

  /** base and defaults are what GetBaseReputation and GetDefaultStateFlags give this player. */
  datatype FactionEntry = FactionEntry(id: nat, listId: int, base: int, defaults: Flags)

  datatype FactionState = FactionState(id: nat, flags: Flags, standing: int, needSend: bool, needSave: bool) {
    function Changed(f: Flags): FactionState { this.(flags := f, needSend := true, needSave := true) }
  }

  function SetVisible(s: FactionState): FactionState {
    if s.flags.Concealed() || s.flags.visible then s else s.Changed(s.flags.(visible := true))
  }

  /** A forced peace yields only to a hated standing, judged without the base reputation. */
  predicate MayDeclareWar(s: FactionState) { !s.flags.peaceForced || RankOf(s.standing) <= HATED }

  function SetAtWar(s: FactionState, atWar: bool): FactionState {
    if (atWar && !MayDeclareWar(s)) || s.flags.atWar == atWar then s else s.Changed(s.flags.(atWar := atWar))
  }

  function SetInactive(s: FactionState, inactive: bool): FactionState {
    if (inactive && (s.flags.Concealed() || !s.flags.visible)) || s.flags.inactive == inactive then s
    else s.Changed(s.flags.(inactive := inactive))
  }

  // ---------- all factions of the player ----------

  /** By reputation list id. */
  type Factions = map<int, FactionState>

  type Store = map<nat, FactionEntry>

  predicate StoreFits(store: Store) {
    && (forall id <- store.Keys :: store[id].id == id)
    && (forall a <- store.Keys, b <- store.Keys ::
          store[a].listId == store[b].listId && store[a].listId >= 0 ==> a == b)
  }

  /** The states belong to the entries of their list ids. */
  predicate Fits(store: Store, f: Factions) {
    forall l <- f.Keys :: l >= 0 && f[l].id in store && store[f[l].id].listId == l
  }

  function Reputation(f: Factions, entry: FactionEntry): int {
    if entry.listId in f then entry.base + f[entry.listId].standing else 0
  }

  function Clamp(standing: int): int {
    if standing > REPUTATION_CAP then REPUTATION_CAP
    else if standing < REPUTATION_BOTTOM then REPUTATION_BOTTOM
    else standing
  }

  /** The state of a faction whose total becomes the given standing. */
  function WithTotal(s: FactionState, base: int, total: int): FactionState {
    var shown := SetVisible(s.(standing := total - base, needSend := true, needSave := true));
    if RankOf(total) <= HOSTILE then SetAtWar(shown, true) else shown
  }

  function SetOne(f: Factions, entry: FactionEntry, standing: int, incremental: bool): Factions {
    if entry.listId !in f then f
    else
      var s := f[entry.listId];
      f[entry.listId := WithTotal(s, entry.base,
          Clamp(if incremental then standing + s.standing + entry.base else standing))]
  }

  /** A slot of a spillover template, and what it is due for a given change of the target. */
  datatype Spill = Spill(faction: nat, rate: real, rank: nat)

  datatype Due = Due(faction: nat, amount: int, rank: nat)

  /** A conversion from float to int32 drops the fraction. */
  function Truncate(x: real): int { if x >= 0.0 then x.Floor else -((-x).Floor) }

  function DueOf(spill: Spill, standing: int): Due {
    Due(spill.faction, Truncate(standing as real * spill.rate), spill.rank)
  }

  function Dues(spills: seq<Spill>, standing: int): seq<Due> {
    seq(|spills|, i requires 0 <= i < |spills| => DueOf(spills[i], standing))
  }

  /** One round of the spillover loop. */
  function SpillOne(store: Store, f: Factions, due: Due, incremental: bool): Factions {
    if due.faction == 0 || due.faction !in store then f
    else if RankOf(Reputation(f, store[due.faction])) <= due.rank
    then SetOne(f, store[due.faction], due.amount, incremental)
    else f
  }

  function SpillAll(store: Store, f: Factions, dues: seq<Due>, incremental: bool): Factions {
    if dues == [] then f
    else SpillOne(store, SpillAll(store, f, dues[..|dues| - 1], incremental), dues[|dues| - 1], incremental)
  }

  /** SendState reports everything that waits to be sent. */
  function Sent(f: Factions): Factions { map l | l in f :: f[l].(needSend := false) }

  function SetReputation(store: Store, f: Factions, spills: seq<Spill>, entry: FactionEntry, standing: int,
                         incremental: bool): Factions
  {
    var spilled := SpillAll(store, f, Dues(spills, standing), incremental);
    if entry.listId in spilled then Sent(SetOne(spilled, entry, standing, incremental)) else spilled
  }

  // ---------- range, frame and war of SetReputation ----------

  predicate TotalInRange(entry: FactionEntry, standing: int) {
    REPUTATION_BOTTOM <= entry.base + standing <= REPUTATION_CAP
  }

  predicate InBounds(store: Store, f: Factions)
    requires Fits(store, f)
  {
    forall l <- f.Keys :: TotalInRange(store[f[l].id], f[l].standing)
  }

  /** What a change of a faction's total does, whoever caused it. */
  ghost predicate Moved(s: FactionState, s': FactionState, base: int) {
    && s'.id == s.id
    && REPUTATION_BOTTOM <= base + s'.standing <= REPUTATION_CAP
    && s'.needSave
    && s'.flags == s.flags.(visible := s'.flags.visible, atWar := s'.flags.atWar)
    && (s'.flags.visible <==> s.flags.visible || !s.flags.Concealed())
    && (s.flags.atWar ==> s'.flags.atWar)
    && (RankOf(base + s'.standing) <= HOSTILE && MayDeclareWar(s') ==> s'.flags.atWar)
  }

  /** One change starts a war exactly if the faction ends hostile and may declare it. */
  ghost predicate WarIsDue(s: FactionState, s': FactionState, base: int) {
    s'.flags.atWar <==> s.flags.atWar || (RankOf(base + s'.standing) <= HOSTILE && MayDeclareWar(s'))
  }

  lemma WithTotalEffect(s: FactionState, base: int, total: int)
    requires REPUTATION_BOTTOM <= total <= REPUTATION_CAP
    ensures var t := WithTotal(s, base, total);
            Moved(s, t, base) && WarIsDue(s, t, base) && base + t.standing == total
  {
  }

  /** Replacing one faction's state by one of the same faction. */
  lemma ReplacedFits(store: Store, f: Factions, l: int, s: FactionState)
    requires Fits(store, f) && l in f && s.id == f[l].id
    ensures f[l := s].Keys == f.Keys && Fits(store, f[l := s])
  {
  }

  lemma SetOneFits(store: Store, f: Factions, entry: FactionEntry, standing: int, incremental: bool)
    requires Fits(store, f)
    ensures var f' := SetOne(f, entry, standing, incremental);
            && f'.Keys == f.Keys && Fits(store, f')
            && (forall l <- f.Keys :: l != entry.listId ==> f'[l] == f[l])
  {
    if entry.listId in f {
      ReplacedFits(store, f, entry.listId, SetOne(f, entry, standing, incremental)[entry.listId]);
    }
  }

  /** The faction itself ends at the clamped total, at war exactly if it was or has to be. */
  lemma SetOneTarget(f: Factions, entry: FactionEntry, standing: int, incremental: bool)
    requires entry.listId in f
    ensures var f' := SetOne(f, entry, standing, incremental);
            && entry.listId in f'
            && Moved(f[entry.listId], f'[entry.listId], entry.base)
            && WarIsDue(f[entry.listId], f'[entry.listId], entry.base)
            && Reputation(f', entry) == Clamp(if incremental then standing + Reputation(f, entry) else standing)
  {
    var s := f[entry.listId];
    WithTotalEffect(s, entry.base, Clamp(if incremental then standing + s.standing + entry.base else standing));
  }

  /** The slot names the faction. */
  predicate Names(store: Store, due: Due, l: int) {
    due.faction != 0 && due.faction in store && store[due.faction].listId == l
  }

  /** Faction l takes part in the round of a slot, judged by its reputation in f. */
  predicate TakesPart(store: Store, f: Factions, due: Due, l: int) {
    Names(store, due, l) && RankOf(Reputation(f, store[due.faction])) <= due.rank
  }

  /** Faction l is an eligible spillover, judged by its reputation before the call. */
  ghost predicate Eligible(store: Store, f: Factions, dues: seq<Due>, l: int) {
    exists i :: 0 <= i < |dues| && TakesPart(store, f, dues[i], l)
  }

  /** Spillover moves the eligible factions and nobody else. */
  ghost predicate OnlyMoves(store: Store, f: Factions, f': Factions, dues: seq<Due>, l: int)
    requires Fits(store, f) && l in f && l in f'
  {
    if Eligible(store, f, dues, l) then Moved(f[l], f'[l], store[f[l].id].base) else f'[l] == f[l]
  }

  lemma MovedTwice(s: FactionState, t: FactionState, u: FactionState, base: int)
    requires Moved(s, t, base) && Moved(t, u, base)
    ensures Moved(s, u, base)
  {
  }

  /** One round moves the faction it names if that one's present rank lets it take part. */
  lemma SpillOneMoves(store: Store, g: Factions, due: Due, incremental: bool, l: int)
    requires StoreFits(store) && Fits(store, g) && l in g
    ensures var f' := SpillOne(store, g, due, incremental);
            && l in f'
            && if TakesPart(store, g, due, l)
               then Moved(g[l], f'[l], store[g[l].id].base)
               else f'[l] == g[l]
  {
    if due.faction != 0 && due.faction in store {
      SetOneFits(store, g, store[due.faction], due.amount, incremental);
      if Names(store, due, l) {
        SetOneTarget(g, store[due.faction], due.amount, incremental);
        assert due.faction == g[l].id;
      }
    }
  }

  lemma SpillOneFits(store: Store, g: Factions, due: Due, incremental: bool)
    requires Fits(store, g)
    ensures var f' := SpillOne(store, g, due, incremental);
            f'.Keys == g.Keys && Fits(store, f')
  {
    if due.faction != 0 && due.faction in store {
      SetOneFits(store, g, store[due.faction], due.amount, incremental);
    }
  }

  lemma EligibleByLast(store: Store, f: Factions, dues: seq<Due>, l: int)
    requires dues != []
    ensures var last := dues[|dues| - 1];
            Eligible(store, f, dues, l) <==>
              Eligible(store, f, dues[..|dues| - 1], l) || TakesPart(store, f, last, l)
  {
    var before := dues[..|dues| - 1];
    if Eligible(store, f, before, l) {
      var i :| 0 <= i < |before| && TakesPart(store, f, before[i], l);
      assert dues[i] == before[i];
    }
    if Eligible(store, f, dues, l) {
      var i :| 0 <= i < |dues| && TakesPart(store, f, dues[i], l);
      if i < |before| { assert before[i] == dues[i]; }
    }
  }

  lemma SpillOneEffect(store: Store, f: Factions, g: Factions, dues: seq<Due>, incremental: bool, l: int)
    requires StoreFits(store) && Fits(store, f) && Fits(store, g) && g.Keys == f.Keys && l in f
    requires dues != [] && OnlyMoves(store, f, g, dues[..|dues| - 1], l)
    ensures var f' := SpillOne(store, g, dues[|dues| - 1], incremental);
            l in f' && OnlyMoves(store, f, f', dues, l)
  {
    var last := dues[|dues| - 1];
    EligibleByLast(store, f, dues, l);
    SpillOneMoves(store, g, last, incremental, l);
    if g[l] == f[l] {
      assert TakesPart(store, g, last, l) == TakesPart(store, f, last, l);
    } else if TakesPart(store, g, last, l) {
      MovedTwice(f[l], g[l], SpillOne(store, g, last, incremental)[l], store[f[l].id].base);
    }
  }

  lemma {:induction false} SpillAllEffect(store: Store, f: Factions, dues: seq<Due>, incremental: bool)
    requires StoreFits(store) && Fits(store, f)
    ensures var f' := SpillAll(store, f, dues, incremental);
            f'.Keys == f.Keys && Fits(store, f') && forall l <- f.Keys :: OnlyMoves(store, f, f', dues, l)
  {
    if dues == [] {
      assert forall l <- f.Keys :: !Eligible(store, f, dues, l);
    } else {
      SpillAllEffect(store, f, dues[..|dues| - 1], incremental);
      var g := SpillAll(store, f, dues[..|dues| - 1], incremental);
      SpillOneFits(store, g, dues[|dues| - 1], incremental);
      forall l <- f.Keys
        ensures OnlyMoves(store, f, SpillAll(store, f, dues, incremental), dues, l)
      {
        SpillOneEffect(store, f, g, dues, incremental, l);
      }
    }
  }

  /** Sending changes nothing but the mark for it. */
  lemma SentKeeps(store: Store, f: Factions)
    requires Fits(store, f)
    ensures Sent(f).Keys == f.Keys && Fits(store, Sent(f))
    ensures forall l <- f.Keys :: Sent(f)[l] == f[l].(needSend := false)
  {
  }

  lemma MovedIsSent(s: FactionState, t: FactionState, base: int)
    requires Moved(s, t, base)
    ensures Moved(s, t.(needSend := false), base)
  {
  }

  lemma SetReputationFits(store: Store, f: Factions, spills: seq<Spill>, entry: FactionEntry, standing: int,
                          incremental: bool)
    requires StoreFits(store) && Fits(store, f)
    ensures var f' := SetReputation(store, f, spills, entry, standing, incremental);
            f'.Keys == f.Keys && Fits(store, f')
  {
    var dues := Dues(spills, standing);
    SpillAllEffect(store, f, dues, incremental);
    var g := SpillAll(store, f, dues, incremental);
    SetOneFits(store, g, entry, standing, incremental);
    SentKeeps(store, SetOne(g, entry, standing, incremental));
  }

  /** The target's own change after the spillover. */
  lemma TargetMoves(store: Store, f: Factions, g: Factions, dues: seq<Due>, entry: FactionEntry, standing: int,
                    incremental: bool)
    requires Fits(store, f) && g.Keys == f.Keys && entry.listId in f && store[f[entry.listId].id] == entry
    requires OnlyMoves(store, f, g, dues, entry.listId)
    ensures var h := SetOne(g, entry, standing, incremental);
            entry.listId in h && Moved(f[entry.listId], h[entry.listId], entry.base)
  {
    var l := entry.listId;
    SetOneTarget(g, entry, standing, incremental);
    if Eligible(store, f, dues, l) {
      MovedTwice(f[l], g[l], SetOne(g, entry, standing, incremental)[l], entry.base);
    }
  }

  /** The whole call: target and eligible spillovers end within bounds and at war if they end hostile
      and may declare it; every other faction keeps standing, flags and save mark. */
  lemma SetReputationMoves(store: Store, f: Factions, spills: seq<Spill>, entry: FactionEntry, standing: int,
                           incremental: bool, l: int)
    requires StoreFits(store) && Fits(store, f) && entry.id in store && store[entry.id] == entry && l in f
    ensures var f' := SetReputation(store, f, spills, entry, standing, incremental);
            && f'.Keys == f.Keys && Fits(store, f')
            && if l == entry.listId || Eligible(store, f, Dues(spills, standing), l)
               then Moved(f[l], f'[l], store[f[l].id].base)
               else f'[l] == f[l].(needSend := f'[l].needSend)
  {
    SetReputationFits(store, f, spills, entry, standing, incremental);
    var dues := Dues(spills, standing);
    SpillAllEffect(store, f, dues, incremental);
    var g := SpillAll(store, f, dues, incremental);
    assert OnlyMoves(store, f, g, dues, l);
    if entry.listId in f {
      var h := SetOne(g, entry, standing, incremental);
      SetOneFits(store, g, entry, standing, incremental);
      SentKeeps(store, h);
      assert SetReputation(store, f, spills, entry, standing, incremental)[l] == h[l].(needSend := false);
      if l == entry.listId {
        assert store[f[l].id] == entry;
        TargetMoves(store, f, g, dues, entry, standing, incremental);
      }
      if l == entry.listId || Eligible(store, f, dues, l) {
        MovedIsSent(f[l], h[l], store[f[l].id].base);
      }
    }
  }

  lemma SetReputationBounds(store: Store, f: Factions, spills: seq<Spill>, entry: FactionEntry, standing: int,
                            incremental: bool)
    requires StoreFits(store) && Fits(store, f) && entry.id in store && store[entry.id] == entry && InBounds(store, f)
    ensures var f' := SetReputation(store, f, spills, entry, standing, incremental);
            f'.Keys == f.Keys && Fits(store, f') && InBounds(store, f')
  {
    SetReputationFits(store, f, spills, entry, standing, incremental);
    var f' := SetReputation(store, f, spills, entry, standing, incremental);
    forall l <- f.Keys
      ensures TotalInRange(store[f'[l].id], f'[l].standing)
    {
      SetReputationMoves(store, f, spills, entry, standing, incremental, l);
    }
  }

  /** The total is kept within the range, and changed only if it is not. */
  predicate IsClamped(result: int, total: int) {
    && REPUTATION_BOTTOM <= result <= REPUTATION_CAP
    && (REPUTATION_BOTTOM <= total <= REPUTATION_CAP ==> result == total)
    && (total > REPUTATION_CAP ==> result == REPUTATION_CAP)
    && (total < REPUTATION_BOTTOM ==> result == REPUTATION_BOTTOM)
  }

  /** The whole number next to x on the way to zero. */
  predicate IsTowardsZero(n: int, x: real) {
    if x >= 0.0 then n >= 0 && n as real <= x < (n + 1) as real
    else n <= 0 && (n - 1) as real < x <= n as real
  }

  /** A round depends, for the faction it names, on that one's state alone. */
  lemma SpillOneSame(store: Store, f: Factions, g: Factions, due: Due, l: int)
    requires StoreFits(store) && l in f && l in g && f[l] == g[l] && Names(store, due, l)
    ensures l in SpillOne(store, f, due, true) && l in SpillOne(store, g, due, true)
    ensures SpillOne(store, g, due, true)[l] == SpillOne(store, f, due, true)[l]
    ensures l in SpillOne(store, f, due, false) && l in SpillOne(store, g, due, false)
    ensures SpillOne(store, g, due, false)[l] == SpillOne(store, f, due, false)[l]
  {
  }

  /** A faction that one slot alone names is changed by that slot alone. */
  lemma {:induction false} NamedOnce(store: Store, f: Factions, dues: seq<Due>, incremental: bool, l: int, j: nat)
    requires StoreFits(store) && Fits(store, f) && l in f && j < |dues|
    requires forall i :: 0 <= i < |dues| ==> (Names(store, dues[i], l) <==> i == j)
    ensures l in SpillAll(store, f, dues, incremental) && l in SpillOne(store, f, dues[j], incremental)
    ensures SpillAll(store, f, dues, incremental)[l] == SpillOne(store, f, dues[j], incremental)[l]
  {
    var before, last := dues[..|dues| - 1], dues[|dues| - 1];
    var g := SpillAll(store, f, before, incremental);
    SpillAllEffect(store, f, before, incremental);
    SpillOneMoves(store, g, last, incremental, l);
    if j == |dues| - 1 {
      assert OnlyMoves(store, f, g, before, l) && !Eligible(store, f, before, l);
      SpillOneSame(store, f, g, last, l);
    } else {
      NamedOnce(store, f, before, incremental, l, j);
    }
  }

  lemma TruncateIsTowardsZero(x: real)
    ensures IsTowardsZero(Truncate(x), x)
  {
  }

  /** The round of an eligible slot adds its amount to the total, clamped. */
  lemma SpillOneTotal(store: Store, f: Factions, due: Due, incremental: bool, l: int)
    requires StoreFits(store) && Fits(store, f) && l in f && TakesPart(store, f, due, l)
    ensures var f' := SpillOne(store, f, due, incremental);
            && l in f' && f'[l].id == f[l].id == due.faction
            && IsClamped(Reputation(f', store[due.faction]),
                         due.amount + if incremental then Reputation(f, store[due.faction]) else 0)
  {
    SetOneTarget(f, store[due.faction], due.amount, incremental);
  }

  /** The target's own change and the sending leave all other standings alone. */
  lemma OthersKeepStanding(store: Store, f: Factions, spills: seq<Spill>, entry: FactionEntry, standing: int,
                           incremental: bool, l: int)
    requires StoreFits(store) && Fits(store, f) && l in f && l != entry.listId
    ensures var g, f' := SpillAll(store, f, Dues(spills, standing), incremental),
                         SetReputation(store, f, spills, entry, standing, incremental);
            l in g && l in f' && f'[l].id == g[l].id && f'[l].standing == g[l].standing
  {
    SpillAllEffect(store, f, Dues(spills, standing), incremental);
    var g := SpillAll(store, f, Dues(spills, standing), incremental);
    SetOneFits(store, g, entry, standing, incremental);
    SentKeeps(store, SetOne(g, entry, standing, incremental));
  }

  lemma NamesItsFaction(store: Store, f: Factions, due: Due, l: int)
    requires StoreFits(store) && Fits(store, f) && l in f && f[l].id != 0
    ensures Names(store, due, l) <==> due.faction == f[l].id
  {
  }

  lemma SpilledTotal(store: Store, f: Factions, dues: seq<Due>, incremental: bool, l: int, j: nat)
    requires StoreFits(store) && Fits(store, f) && l in f && f[l].id != 0 && j < |dues|
    requires forall i :: 0 <= i < |dues| ==> (dues[i].faction == f[l].id <==> i == j)
    requires RankOf(Reputation(f, store[f[l].id])) <= dues[j].rank
    ensures var g := SpillAll(store, f, dues, incremental);
            && l in g && IsClamped(Reputation(g, store[f[l].id]),
                                   dues[j].amount + if incremental then Reputation(f, store[f[l].id]) else 0)
  {
    forall i | 0 <= i < |dues|
      ensures Names(store, dues[i], l) <==> i == j
    {
      NamesItsFaction(store, f, dues[i], l);
    }
    NamedOnce(store, f, dues, incremental, l, j);
    SpillOneTotal(store, f, dues[j], incremental, l);
  }

  lemma SpilloverTotal(store: Store, f: Factions, spills: seq<Spill>, entry: FactionEntry, standing: int,
                       incremental: bool, l: int, j: nat, dues: seq<Due>)
    requires dues == Dues(spills, standing)
    requires StoreFits(store) && Fits(store, f) && l in f && f[l].id != 0 && l != entry.listId && j < |dues|
    requires forall i :: 0 <= i < |dues| ==> (dues[i].faction == f[l].id <==> i == j)
    requires RankOf(Reputation(f, store[f[l].id])) <= dues[j].rank
    ensures IsClamped(Reputation(SetReputation(store, f, spills, entry, standing, incremental), store[f[l].id]),
                      dues[j].amount + if incremental then Reputation(f, store[f[l].id]) else 0)
  {
    SpilledTotal(store, f, dues, incremental, l, j);
    OthersKeepStanding(store, f, spills, entry, standing, incremental, l);
  }

  /** The slots as they are due: whom, how much, and up to which rank. */
  lemma DuesOf(spills: seq<Spill>, standing: int)
    ensures |Dues(spills, standing)| == |spills|
    ensures forall i :: 0 <= i < |spills| ==>
              var due := Dues(spills, standing)[i];
              && due.faction == spills[i].faction && due.rank == spills[i].rank
              && IsDue(due.amount, spills[i], standing)
  {
    forall i | 0 <= i < |spills|
      ensures IsDue(Dues(spills, standing)[i].amount, spills[i], standing)
    {
      TruncateIsTowardsZero(standing as real * spills[i].rate);
    }
  }

  /** Standing times rate, towards zero. */
  predicate IsDue(amount: int, spill: Spill, standing: int) {
    IsTowardsZero(amount, standing as real * spill.rate)
  }

  /** A spillover: an eligible faction that one slot names, and which is not the target, ends at its old total plus
      standing times rate, towards zero, or at that alone if the change is not incremental; clamped. */
  lemma SpilloverAmount(store: Store, f: Factions, spills: seq<Spill>, entry: FactionEntry, standing: int,
                        incremental: bool, l: int, j: nat) returns (amount: int)
    requires StoreFits(store) && Fits(store, f) && l in f && f[l].id != 0 && l != entry.listId && j < |spills|
    requires forall i :: 0 <= i < |spills| ==> (spills[i].faction == f[l].id <==> i == j)
    requires RankOf(Reputation(f, store[f[l].id])) <= spills[j].rank
    ensures IsDue(amount, spills[j], standing)
    ensures IsClamped(Reputation(SetReputation(store, f, spills, entry, standing, incremental), store[f[l].id]),
                      amount + if incremental then Reputation(f, store[f[l].id]) else 0)
  {
    DuesOf(spills, standing);
    var dues := Dues(spills, standing);
    amount := dues[j].amount;
    SpilloverTotal(store, f, spills, entry, standing, incremental, l, j, dues);
  }

  /** A target that is no spillover of itself ends at the clamped new total. */
  lemma SetReputationHitsTarget(store: Store, f: Factions, spills: seq<Spill>, entry: FactionEntry, standing: int,
                                incremental: bool)
    requires StoreFits(store) && Fits(store, f) && entry.id in store && store[entry.id] == entry
    requires entry.listId in f && !Eligible(store, f, Dues(spills, standing), entry.listId)
    ensures IsClamped(Reputation(SetReputation(store, f, spills, entry, standing, incremental), entry),
                      standing + if incremental then Reputation(f, entry) else 0)
  {
    SpillAllEffect(store, f, Dues(spills, standing), incremental);
    var g := SpillAll(store, f, Dues(spills, standing), incremental);
    assert OnlyMoves(store, f, g, Dues(spills, standing), entry.listId);
    SetOneTarget(g, entry, standing, incremental);
  }

  /** A forced peace ends only for a standing below -6000, not counting the base; otherwise a player may declare war
      on, and make peace with, every faction that is not concealed. */
  lemma PeaceIsForced(s: FactionState, base: int, total: int, on: bool)
    ensures s.flags.peaceForced && !s.flags.atWar && total - base >= -6000 ==> !WithTotal(s, base, total).flags.atWar
    ensures s.flags.hidden || s.flags.invisibleForced ==> PublicSetAtWar(s, on) == s
    ensures !s.flags.hidden && !s.flags.invisibleForced ==>
              (PublicSetAtWar(s, on).flags.atWar <==>
                 if on then s.flags.atWar || !s.flags.peaceForced || s.standing < -6000 else false)
  {
  }

  // ---------- the cache and its rows ----------

  datatype Row = Row(standing: int, flags: Flags)

  /** The player's rows of character_reputation, by faction. */
  type Table = map<nat, Row>

  predicate IsSaved(s: FactionState, table: Table) {
    s.id in table && table[s.id] == Row(s.standing, s.flags)
  }

  /** A faction that is not marked for saving equals its row. */
  predicate Cached(f: Factions, table: Table) {
    forall l <- f.Keys :: f[l].needSave || IsSaved(f[l], table)
  }

  function Fresh(entry: FactionEntry): FactionState { FactionState(entry.id, entry.defaults, 0, true, true) }

  /** What LoadFromDB makes of one row, on top of the initial state. */
  function LoadedState(entry: FactionEntry, row: Row): FactionState {
    var s := WarLoaded(entry, row, ShownLoaded(entry, row));
    if s.flags == row.flags then s.(needSend := false, needSave := false) else s
  }

  function ShownLoaded(entry: FactionEntry, row: Row): FactionState {
    var s := Fresh(entry).(standing := row.standing);
    var s1 := if row.flags.visible then SetVisible(s) else s;
    if row.flags.inactive then SetInactive(s1, true) else s1
  }

  function WarLoaded(entry: FactionEntry, row: Row, s: FactionState): FactionState {
    var s1 := if row.flags.atWar then SetAtWar(s, true) else if s.flags.visible then SetAtWar(s, false) else s;
    if RankOf(entry.base + s1.standing) <= HOSTILE then SetAtWar(s1, true) else s1
  }

  lemma ShownLoadedFlags(entry: FactionEntry, row: Row)
    ensures var s := ShownLoaded(entry, row);
            var shown := entry.defaults.visible || (row.flags.visible && !entry.defaults.Concealed());
            && s.id == entry.id && s.standing == row.standing && s.needSave
            && s.flags == entry.defaults.(
                 visible := shown,
                 inactive := entry.defaults.inactive || (row.flags.inactive && shown && !entry.defaults.Concealed()))
  {
  }

  lemma WarLoadedFlags(entry: FactionEntry, row: Row, s: FactionState)
    requires s.needSave
    ensures var t := WarLoaded(entry, row, s);
            var hostile := RankOf(entry.base + s.standing) <= HOSTILE;
            && t.id == s.id && t.standing == s.standing && t.needSave
            && t.flags == s.flags.(atWar :=
                 || (if row.flags.atWar then s.flags.atWar || MayDeclareWar(s) else !s.flags.visible && s.flags.atWar)
                 || (hostile && MayDeclareWar(s)))
  {
  }

  function StateFor(entry: FactionEntry, table: Table): FactionState {
    if entry.id in table then LoadedState(entry, table[entry.id]) else Fresh(entry)
  }

  lemma SomethingIn(ids: set<int>)
    requires ids != {}
    ensures exists l :: l in ids
  {
    assert (forall l :: l !in ids) ==> ids == {};
  }

  ghost function ListIds(store: Store, ids: set<nat>): set<int>
    requires ids <= store.Keys
  {
    set id | id in ids && store[id].listId >= 0 :: store[id].listId
  }

  lemma ListIdsGrow(store: Store, ids: set<nat>, id: nat)
    requires ids <= store.Keys && id in store
    ensures ListIds(store, ids + {id}) ==
            if store[id].listId >= 0 then ListIds(store, ids) + {store[id].listId} else ListIds(store, ids)
  {
  }

  /** Every listed entry has its state, and there are no others. */
  ghost predicate IsLoaded(store: Store, table: Table, f: Factions) {
    && f.Keys == ListIds(store, store.Keys)
    && (forall id <- store.Keys :: store[id].listId in f ==> f[store[id].listId] == StateFor(store[id], table))
  }

  /** What play never changes about a faction's flags, and that visibility is only ever gained. */
  predicate Shaped(entry: FactionEntry, flags: Flags) {
    && flags.hidden == entry.defaults.hidden && flags.invisibleForced == entry.defaults.invisibleForced
    && flags.peaceForced == entry.defaults.peaceForced && flags.other == entry.defaults.other
    && (entry.defaults.visible ==> flags.visible)
    && (flags.Concealed() ==> flags.visible == entry.defaults.visible)
  }

  predicate AllShaped(store: Store, f: Factions)
    requires Fits(store, f)
  {
    forall l <- f.Keys :: Shaped(store[f[l].id], f[l].flags)
  }

  /** The AT_WAR bit survives saving and loading: a declared war must be allowed again or be the
      default; a peace must be visible or the default and not be overruled by hostility. */
  predicate WarSurvives(entry: FactionEntry, s: FactionState) {
    if s.flags.atWar then entry.defaults.atWar || MayDeclareWar(s)
    else (s.flags.visible || !entry.defaults.atWar) && !(RankOf(entry.base + s.standing) <= HOSTILE && MayDeclareWar(s))
  }

  predicate InactivitySurvives(entry: FactionEntry, s: FactionState) {
    if s.flags.inactive then entry.defaults.inactive || (s.flags.visible && !s.flags.Concealed())
    else !entry.defaults.inactive
  }

  /** Saving a faction and loading it again: standing, visibility and all fixed bits always come
      back, AT_WAR and INACTIVE exactly under the conditions above, and the loaded state is again
      a faithful cache of its row. */
  lemma SaveThenLoad(entry: FactionEntry, s: FactionState)
    requires s.id == entry.id && Shaped(entry, s.flags)
    ensures var t := LoadedState(entry, Row(s.standing, s.flags));
            && t.id == s.id && t.standing == s.standing && Shaped(entry, t.flags)
            && t.flags.(atWar := s.flags.atWar, inactive := s.flags.inactive) == s.flags
            && (t.flags.atWar == s.flags.atWar <==> WarSurvives(entry, s))
            && (t.flags.inactive == s.flags.inactive <==> InactivitySurvives(entry, s))
            && (!t.needSave <==> t.flags == s.flags)
  {
    var row := Row(s.standing, s.flags);
    ShownLoadedFlags(entry, row);
    WarLoadedFlags(entry, row, ShownLoaded(entry, row));
    assert MayDeclareWar(ShownLoaded(entry, row)) == MayDeclareWar(s);
  }

  /** In particular the AT_WAR bit of every visible faction without forced peace that ranks above
      Hostile comes back. */
  lemma OrdinaryWarSurvives(entry: FactionEntry, s: FactionState)
    requires s.flags.visible && !s.flags.peaceForced && RankOf(entry.base + s.standing) > HOSTILE
    ensures WarSurvives(entry, s)
  {
  }

  /** A hidden default war that the player ended is back after the next login. */
  lemma EndedHiddenWarReturns()
    ensures var peaceful := Flags(false, false, false, false, false, false, 0);
            var entry := FactionEntry(1, 0, 0, peaceful.(atWar := true));
            var s := FactionState(1, peaceful, 0, false, true);
            Shaped(entry, s.flags) && LoadedState(entry, Row(s.standing, s.flags)).flags.atWar
  {
  }

  /** Rows of any content load into shaped states that are faithful caches. */
  lemma LoadedIsCached(store: Store, table: Table, f: Factions)
    requires StoreFits(store) && IsLoaded(store, table, f)
    ensures Fits(store, f) && AllShaped(store, f) && Cached(f, table)
  {
    forall l <- f.Keys
      ensures l >= 0 && f[l].id in store && store[f[l].id].listId == l
      ensures Shaped(store[f[l].id], f[l].flags) && (f[l].needSave || IsSaved(f[l], table))
    {
      var id :| id in store && store[id].listId == l;
      assert f[l] == StateFor(store[id], table);
      if id in table {
        ShownLoadedFlags(store[id], table[id]);
        WarLoadedFlags(store[id], table[id], ShownLoaded(store[id], table[id]));
      }
    }
  }

  // ---------- every run ----------

  /** The player's cache and the rows in the database. */
  datatype Session = Session(factions: Factions, table: Table)

  datatype Call =
    | CallSetReputation(spills: seq<Spill>, entry: FactionEntry, standing: int, incremental: bool)
    | CallSetVisible(listId: int)
    | CallSetAtWar(listId: int, on: bool)
    | CallSetInactive(listId: int, on: bool)
    | CallSave
    | CallLoad

  /** The public SetAtWar: concealed factions cannot change their war state. */
  function PublicSetAtWar(s: FactionState, on: bool): FactionState {
    if s.flags.Concealed() then s else SetAtWar(s, on)
  }

  /** The changes a player can ask for, as functions on the state of a faction. */
  function Showing(): FactionState -> FactionState { s => SetVisible(s) }

  function Warring(on: bool): FactionState -> FactionState { s => PublicSetAtWar(s, on) }

  function Resting(on: bool): FactionState -> FactionState { s => SetInactive(s, on) }

  function Apply(f: Factions, l: int, change: FactionState -> FactionState): Factions {
    if l in f then f[l := change(f[l])] else f
  }

  ghost predicate IsSaveOf(a: Session, b: Session) {
    && b.factions == Unmarked(a.factions, a.factions.Keys)
    && SavedSome(a.factions, a.factions.Keys, a.table, b.table)
  }

  ghost predicate StepBy(store: Store, a: Session, call: Call, b: Session) {
    match call
    case CallSetReputation(spills, entry, standing, incremental) =>
      entry.id in store && store[entry.id] == entry
      && b == a.(factions := SetReputation(store, a.factions, spills, entry, standing, incremental))
    case CallSetVisible(l) => b == a.(factions := Apply(a.factions, l, Showing()))
    case CallSetAtWar(l, on) => b == a.(factions := Apply(a.factions, l, Warring(on)))
    case CallSetInactive(l, on) => b == a.(factions := Apply(a.factions, l, Resting(on)))
    case CallSave => IsSaveOf(a, b)
    case CallLoad => b.table == a.table && IsLoaded(store, a.table, b.factions)
  }

  ghost predicate Step(store: Store, a: Session, b: Session) {
    exists call: Call :: StepBy(store, a, call, b)
  }

  ghost predicate Faithful(store: Store, a: Session) {
    StoreFits(store) && Fits(store, a.factions) && AllShaped(store, a.factions) && Cached(a.factions, a.table)
  }

  /** A change of one faction that keeps it shaped and marks it if it differs. */
  ghost predicate Careful(s: FactionState, s': FactionState, entry: FactionEntry) {
    && s'.id == s.id
    && (Shaped(entry, s.flags) ==> Shaped(entry, s'.flags))
    && (s'.needSave || (s'.standing == s.standing && s'.flags == s.flags && !s.needSave))
  }

  lemma MovedIsCareful(s: FactionState, s': FactionState, entry: FactionEntry)
    requires Moved(s, s', entry.base)
    ensures Careful(s, s', entry)
  {
  }

  lemma ChangesAreCareful(s: FactionState, entry: FactionEntry, on: bool)
    ensures Careful(s, Showing()(s), entry)
    ensures Careful(s, Warring(on)(s), entry)
    ensures Careful(s, Resting(on)(s), entry)
  {
  }

  lemma CarefulStep(store: Store, a: Session, f: Factions)
    requires Faithful(store, a) && f.Keys == a.factions.Keys
    requires forall l <- f.Keys :: Careful(a.factions[l], f[l], store[a.factions[l].id])
    ensures Faithful(store, a.(factions := f))
  {
  }

  /** A faction's save mark cleared by SaveToDB really means an equal row. */
  lemma SaveMakesEqual(store: Store, a: Session, b: Session)
    requires Faithful(store, a) && IsSaveOf(a, b)
    ensures forall l <- b.factions.Keys :: !b.factions[l].needSave && IsSaved(b.factions[l], b.table)
    ensures Faithful(store, b)
  {
    forall l <- b.factions.Keys
      ensures IsSaved(b.factions[l], b.table)
    {
      var s := a.factions[l];
      if !s.needSave {
        forall k <- a.factions.Keys | a.factions[k].id == s.id
          ensures !a.factions[k].needSave
        {
          assert k == l;
        }
        assert IsSaved(s, a.table);
      }
    }
  }

  lemma SetReputationIsCareful(store: Store, a: Session, spills: seq<Spill>, entry: FactionEntry, standing: int,
                               incremental: bool)
    requires Faithful(store, a) && entry.id in store && store[entry.id] == entry
    ensures Faithful(store, a.(factions := SetReputation(store, a.factions, spills, entry, standing, incremental)))
  {
    var f := SetReputation(store, a.factions, spills, entry, standing, incremental);
    SetReputationFits(store, a.factions, spills, entry, standing, incremental);
    forall l <- a.factions.Keys
      ensures Careful(a.factions[l], f[l], store[a.factions[l].id])
    {
      SetReputationMoves(store, a.factions, spills, entry, standing, incremental, l);
      if l == entry.listId || Eligible(store, a.factions, Dues(spills, standing), l) {
        MovedIsCareful(a.factions[l], f[l], store[a.factions[l].id]);
      }
    }
    CarefulStep(store, a, f);
  }

  lemma ApplyIsCareful(store: Store, a: Session, l: int, change: FactionState -> FactionState)
    requires Faithful(store, a)
    requires l in a.factions ==> Careful(a.factions[l], change(a.factions[l]), store[a.factions[l].id])
    ensures Faithful(store, a.(factions := Apply(a.factions, l, change)))
  {
    CarefulStep(store, a, Apply(a.factions, l, change));
  }

  lemma ChangesKeepFaithful(store: Store, a: Session, l: int, on: bool)
    requires Faithful(store, a)
    ensures Faithful(store, a.(factions := Apply(a.factions, l, Showing())))
    ensures Faithful(store, a.(factions := Apply(a.factions, l, Warring(on))))
    ensures Faithful(store, a.(factions := Apply(a.factions, l, Resting(on))))
  {
    if l in a.factions { ChangesAreCareful(a.factions[l], store[a.factions[l].id], on); }
    ApplyIsCareful(store, a, l, Showing());
    ApplyIsCareful(store, a, l, Warring(on));
    ApplyIsCareful(store, a, l, Resting(on));
  }

  lemma LoadKeepsFaithful(store: Store, a: Session, b: Session)
    requires Faithful(store, a) && b.table == a.table && IsLoaded(store, a.table, b.factions)
    ensures Faithful(store, b)
  {
    LoadedIsCached(store, a.table, b.factions);
  }

  lemma StepKeepsFaithful(store: Store, a: Session, b: Session)
    requires Faithful(store, a) && Step(store, a, b)
    ensures Faithful(store, b)
  {
    var call: Call :| StepBy(store, a, call, b);
    StepByKeepsFaithful(store, a, call, b);
  }

  lemma StepByKeepsFaithful(store: Store, a: Session, call: Call, b: Session)
    requires Faithful(store, a) && StepBy(store, a, call, b)
    ensures Faithful(store, b)
  {
    match call
    case CallSetReputation(spills, entry, standing, incremental) =>
      SetReputationIsCareful(store, a, spills, entry, standing, incremental);
    case CallSetVisible(l) => ChangesKeepFaithful(store, a, l, true);
    case CallSetAtWar(l, on) => ChangesKeepFaithful(store, a, l, on);
    case CallSetInactive(l, on) => ChangesKeepFaithful(store, a, l, on);
    case CallSave => SaveMakesEqual(store, a, b);
    case CallLoad => LoadKeepsFaithful(store, a, b);
  }

  /** In every run from a faithful cache, whatever was set, saved or loaded in between, a faction
      without the save mark equals its database row. */
  lemma RunsStayFaithful(store: Store, run: seq<Session>, i: nat, j: nat)
    requires IsRun(run, (a, b) => Step(store, a, b)) && i <= j < |run| && Faithful(store, run[i])
    ensures Faithful(store, run[j])
    ensures forall l <- run[j].factions.Keys :: run[j].factions[l].needSave || IsSaved(run[j].factions[l], run[j].table)
  {
    forall a, b, c | (Faithful(store, a) ==> Faithful(store, b)) && Step(store, b, c)
      ensures Faithful(store, a) ==> Faithful(store, c)
    {
      if Faithful(store, a) { StepKeepsFaithful(store, b, c); }
    }
    Along(run, (a, b) => Step(store, a, b), (a, b) => Faithful(store, a) ==> Faithful(store, b), i, j);
  }

  // ---------- every run stays in range ----------

  /** Rows of listed factions hold totals within range, and so do the bases where there is no row. */
  predicate RowsInRange(store: Store, table: Table) {
    forall id <- store.Keys :: store[id].listId >= 0 ==>
      TotalInRange(store[id], if id in table then table[id].standing else 0)
  }

  /** Loading does not clamp: the loaded factions are within range exactly if the rows are. */
  lemma LoadedInRange(store: Store, table: Table, f: Factions)
    requires StoreFits(store) && IsLoaded(store, table, f)
    ensures Fits(store, f) && (InBounds(store, f) <==> RowsInRange(store, table))
  {
    LoadedIsCached(store, table, f);
    forall id <- store.Keys | store[id].listId >= 0
      ensures store[id].listId in f && f[store[id].listId].id == id
      ensures f[store[id].listId].standing == if id in table then table[id].standing else 0
    {
      assert store[id].listId in ListIds(store, store.Keys);
      assert f[store[id].listId] == StateFor(store[id], table);
      if id in table {
        ShownLoadedFlags(store[id], table[id]);
        WarLoadedFlags(store[id], table[id], ShownLoaded(store[id], table[id]));
      }
    }
  }

  /** A faithful cache within range, over rows within range. */
  ghost predicate InRange(store: Store, a: Session) {
    Faithful(store, a) && InBounds(store, a.factions) && RowsInRange(store, a.table)
  }

  lemma ApplyStaysInRange(store: Store, a: Session, l: int, change: FactionState -> FactionState)
    requires InRange(store, a) && forall s :: change(s).id == s.id && change(s).standing == s.standing
    ensures Fits(store, Apply(a.factions, l, change)) && InBounds(store, Apply(a.factions, l, change))
  {
  }

  lemma SaveStaysInRange(store: Store, a: Session, b: Session)
    requires InRange(store, a) && IsSaveOf(a, b)
    ensures Fits(store, b.factions) && InBounds(store, b.factions) && RowsInRange(store, b.table)
  {
    forall id <- store.Keys | store[id].listId >= 0
      ensures TotalInRange(store[id], if id in b.table then b.table[id].standing else 0)
    {
      if l :| l in a.factions.Keys && a.factions[l].id == id && a.factions[l].needSave {
        assert b.table[id] == Row(a.factions[l].standing, a.factions[l].flags);
      }
    }
  }

  lemma StepStaysInRange(store: Store, a: Session, b: Session)
    requires InRange(store, a) && Step(store, a, b)
    ensures InRange(store, b)
  {
    StepKeepsFaithful(store, a, b);
    var call: Call :| StepBy(store, a, call, b);
    StepByStaysInRange(store, a, call, b);
  }

  lemma LoadStaysInRange(store: Store, a: Session, b: Session)
    requires InRange(store, a) && b.table == a.table && IsLoaded(store, a.table, b.factions)
    ensures Fits(store, b.factions) && InBounds(store, b.factions) && RowsInRange(store, b.table)
  {
    LoadedInRange(store, a.table, b.factions);
  }

  lemma StepByStaysInRange(store: Store, a: Session, call: Call, b: Session)
    requires InRange(store, a) && StepBy(store, a, call, b)
    ensures Fits(store, b.factions) && InBounds(store, b.factions) && RowsInRange(store, b.table)
  {
    match call
    case CallSetReputation(spills, entry, standing, incremental) =>
      SetReputationBounds(store, a.factions, spills, entry, standing, incremental);
    case CallSetVisible(l) => ApplyStaysInRange(store, a, l, Showing());
    case CallSetAtWar(l, on) => ApplyStaysInRange(store, a, l, Warring(on));
    case CallSetInactive(l, on) => ApplyStaysInRange(store, a, l, Resting(on));
    case CallSave => SaveStaysInRange(store, a, b);
    case CallLoad => LoadStaysInRange(store, a, b);
  }

  /** In every run that starts with totals within range in the cache and in the rows, whatever is set, saved
      and loaded, every total of a faction stays within range. */
  lemma RunsStayInRange(store: Store, run: seq<Session>, i: nat, j: nat)
    requires IsRun(run, (a, b) => Step(store, a, b)) && i <= j < |run| && InRange(store, run[i])
    ensures InRange(store, run[j])
  {
    forall a, b, c | (InRange(store, a) ==> InRange(store, b)) && Step(store, b, c)
      ensures InRange(store, a) ==> InRange(store, c)
    {
      if InRange(store, a) { StepStaysInRange(store, b, c); }
    }
    Along(run, (a, b) => Step(store, a, b), (a, b) => InRange(store, a) ==> InRange(store, b), i, j);
  }

  /** Saving and loading again brings every faction back as SaveThenLoad says. */
  lemma SaveThenLoadAll(store: Store, a: Session, b: Session, f: Factions, l: int)
    requires Faithful(store, a) && IsSaveOf(a, b) && IsLoaded(store, b.table, f) && l in a.factions
    ensures l in f && f[l].id == a.factions[l].id && f[l].standing == a.factions[l].standing
    ensures f[l].flags.visible == a.factions[l].flags.visible
    ensures f[l].flags.atWar == a.factions[l].flags.atWar <==> WarSurvives(store[a.factions[l].id], a.factions[l])
    ensures f[l].flags.inactive == a.factions[l].flags.inactive
            <==> InactivitySurvives(store[a.factions[l].id], a.factions[l])
  {
    SaveMakesEqual(store, a, b);
    var s := a.factions[l];
    var entry := store[s.id];
    assert IsSaved(b.factions[l], b.table);
    assert store[s.id].listId == l;
    assert f[l] == LoadedState(entry, Row(s.standing, s.flags));
    SaveThenLoad(entry, s);
  }

  // ---------- the manager object ----------

  class ReputationMgr {
    const store: Store
    var factions: Factions
    var table: Table

    ghost predicate Valid()
      reads this
    {
      StoreFits(store) && Fits(store, factions)
    }

    constructor (store: Store, table: Table)
      requires StoreFits(store)
      ensures Valid() && this.store == store && this.table == table && factions == map[]
    {
      this.store, this.table, this.factions := store, table, map[];
    }

    method SetOneFactionReputation(entry: FactionEntry, standing0: int, incremental: bool) returns (res: bool)
      modifies this`factions
      ensures factions == SetOne(old(factions), entry, standing0, incremental)
      ensures res == (entry.listId in factions)
    {
      if entry.listId !in factions {
        return false;
      }
      var s := factions[entry.listId];
      var standing := standing0;
      if incremental {
        standing := standing + s.standing + entry.base;
      }
      if standing > REPUTATION_CAP {
        standing := REPUTATION_CAP;
      } else if standing < REPUTATION_BOTTOM {
        standing := REPUTATION_BOTTOM;
      }
      s := s.(standing := standing - entry.base, needSend := true, needSave := true);
      s := SetVisible(s);
      var rank := ReputationToRank(standing);
      if rank <= HOSTILE {
        s := SetAtWar(s, true);
      }
      factions := factions[entry.listId := s];
      res := true;
    }

    /** spills are the slots of the target's spillover template; none if it has no template. */
    method ChangeReputation(entry: FactionEntry, spills: seq<Spill>, standing: int, incremental: bool)
      returns (res: bool)
      requires Valid()
      modifies this`factions
      ensures factions == SetReputation(store, old(factions), spills, entry, standing, incremental)
      ensures res == (entry.listId in factions)
    {
      res := false;
      ghost var dues := Dues(spills, standing);
      var i := 0;
      while i < |spills|
        invariant 0 <= i <= |spills|
        invariant factions == SpillAll(store, old(factions), dues[..i], incremental)
      {
        assert dues[..i + 1][..i] == dues[..i];
        var due := DueOf(spills[i], standing);
        if due.faction != 0 && due.faction in store {
          var rank := ReputationToRank(Reputation(factions, store[due.faction]));
          if rank <= due.rank {
            var _ := SetOneFactionReputation(store[due.faction], due.amount, incremental);
          }
        }
        i := i + 1;
      }
      assert dues[..i] == dues;
      if entry.listId in factions {
        res := SetOneFactionReputation(entry, standing, incremental);
        factions := Sent(factions);
      }
    }

    method AtWar(listId: int, on: bool)
      modifies this`factions
      ensures factions == Apply(old(factions), listId, Warring(on))
    {
      if listId !in factions || factions[listId].flags.Concealed() {
        assert listId in factions ==> factions[listId := factions[listId]] == factions;
        return;
      }
      factions := factions[listId := SetAtWar(factions[listId], on)];
    }

    method Initialize()
      requires StoreFits(store)
      modifies this`factions
      ensures IsLoaded(store, map[], factions)
    {
      factions := map[];
      var remaining := store.Keys;
      ghost var done: set<nat> := {};
      while remaining != {}
        invariant done + remaining == store.Keys && done !! remaining
        invariant factions.Keys == ListIds(store, done)
        invariant forall id <- store.Keys ::
          store[id].listId in factions ==> factions[store[id].listId] == Fresh(store[id])
        decreases remaining
      {
        var id :| id in remaining;
        var entry := store[id];
        ListIdsGrow(store, done, id);
        if entry.listId >= 0 {
          factions := factions[entry.listId := FactionState(entry.id, entry.defaults, 0, true, true)];
        }
        done, remaining := done + {id}, remaining - {id};
      }
      assert done == store.Keys;
    }

    /** The part of LoadFromDB that brings one faction from its initial state to its row. */
    static method LoadRow(entry: FactionEntry, row: Row, initial: FactionState) returns (s: FactionState)
      requires initial == Fresh(entry)
      ensures s == LoadedState(entry, row)
    {
      s := initial.(standing := row.standing);
      if row.flags.visible {
        s := SetVisible(s);
      }
      if row.flags.inactive {
        s := SetInactive(s, true);
      }
      if row.flags.atWar {
        s := SetAtWar(s, true);
      } else if s.flags.visible {
        s := SetAtWar(s, false);
      }
      var rank := ReputationToRank(entry.base + s.standing);
      if rank <= HOSTILE {
        s := SetAtWar(s, true);
      }
      if s.flags == row.flags {
        s := s.(needSend := false, needSave := false);
      }
    }

    /** Reads the player's rows back, in any order. */
    method LoadFromDB()
      requires StoreFits(store)
      modifies this`factions
      ensures IsLoaded(store, table, factions)
    {
      Initialize();
      LoadedEnds(store, table, factions);
      var remaining := table.Keys;
      while remaining != {}
        invariant remaining <= table.Keys && LoadedSome(store, table, remaining, factions)
        decreases remaining
      {
        var id :| id in remaining;
        LoadedNext(store, table, remaining, id, factions);
        if id in store && store[id].listId >= 0 {
          var entry := store[id];
          var s := LoadRow(entry, table[id], factions[entry.listId]);
          factions := factions[entry.listId := s];
        }
        remaining := remaining - {id};
      }
      LoadedEnds(store, table, factions);
    }

    /** Writes every marked faction as a deleted and inserted row. */
    method SaveToDB()
      requires Valid()
      modifies this`factions, this`table
      ensures IsSaveOf(Session(old(factions), old(table)), Session(factions, table))
    {
      ghost var before := factions;
      ghost var done: set<int> := {};
      FittingIdsAreDistinct(store, before);
      SavedNothing(before, table);
      var remaining := factions.Keys;
      while remaining != {}
        invariant done + remaining == before.Keys && done !! remaining
        invariant SavedUpTo(before, done, old(table), factions, table)
        decreases remaining
      {
        SomethingIn(remaining);
        var l :| l in remaining;
        SavedNext(before, done, l, old(table), factions, table);
        var s := factions[l];
        if s.needSave {
          table := table - {s.id};
          table := table[s.id := Row(s.standing, s.flags)];
        }
        factions := factions[l := s.(needSave := false)];
        done, remaining := done + {l}, remaining - {l};
      }
      assert done == before.Keys;
    }
  }

  /** Every faction has the state of its row, except that those with the given ids are still fresh. */
  ghost predicate LoadedSome(store: Store, table: Table, waiting: set<nat>, f: Factions) {
    && f.Keys == ListIds(store, store.Keys)
    && forall id <- store.Keys :: store[id].listId in f ==>
         f[store[id].listId] == if id in waiting then Fresh(store[id]) else StateFor(store[id], table)
  }

  lemma LoadedEnds(store: Store, table: Table, f: Factions)
    requires StoreFits(store)
    ensures IsLoaded(store, map[], f) ==> LoadedSome(store, table, table.Keys, f)
    ensures LoadedSome(store, table, {}, f) ==> IsLoaded(store, table, f)
  {
  }

  lemma LoadedNext(store: Store, table: Table, waiting: set<nat>, id: nat, f: Factions)
    requires StoreFits(store) && LoadedSome(store, table, waiting, f) && id in waiting && id in table
    ensures if id in store && store[id].listId >= 0 then
              && store[id].listId in f && f[store[id].listId] == Fresh(store[id])
              && LoadedSome(store, table, waiting - {id}, f[store[id].listId := LoadedState(store[id], table[id])])
            else LoadedSome(store, table, waiting - {id}, f)
  {
    if id in store && store[id].listId >= 0 {
      assert store[id].listId in ListIds(store, store.Keys);
      var f' := f[store[id].listId := LoadedState(store[id], table[id])];
      assert f'.Keys == f.Keys;
    }
  }

  /** The given factions without their save mark. */
  function Unmarked(f: Factions, done: set<int>): Factions {
    map l | l in f :: if l in done then f[l].(needSave := false) else f[l]
  }

  /** The marked ones of the given factions have their rows, all other rows are as before. */
  ghost predicate SavedSome(f: Factions, done: set<int>, table: Table, table': Table)
    requires done <= f.Keys
  {
    && (forall id :: (forall l <- done :: f[l].id == id ==> !f[l].needSave) ==>
          (id in table' <==> id in table) && (id in table ==> table'[id] == table[id]))
    && (forall l <- done :: f[l].needSave ==> f[l].id in table' && table'[f[l].id] == Row(f[l].standing, f[l].flags))
  }

  ghost predicate DistinctIds(f: Factions) {
    forall a <- f.Keys, b <- f.Keys :: f[a].id == f[b].id ==> a == b
  }

  lemma FittingIdsAreDistinct(store: Store, f: Factions)
    requires StoreFits(store) && Fits(store, f)
    ensures DistinctIds(f)
  {
  }

  /** The loop of SaveToDB, with the factions done saved and unmarked. */
  ghost predicate SavedUpTo(before: Factions, done: set<int>, table: Table, f: Factions, table': Table)
    requires done <= before.Keys
  {
    f == Unmarked(before, done) && SavedSome(before, done, table, table')
  }

  lemma SavedNothing(f: Factions, table: Table)
    ensures SavedUpTo(f, {}, table, f, table)
  {
    assert f == Unmarked(f, {});
  }

  /** What saving one faction makes of the rows. */
  function RowSaved(s: FactionState, table: Table): Table {
    if s.needSave then (table - {s.id})[s.id := Row(s.standing, s.flags)] else table
  }

  lemma SavedNext(before: Factions, done: set<int>, l: int, table: Table, f: Factions, table': Table)
    requires done <= before.Keys && l in before && l !in done && DistinctIds(before)
    requires SavedUpTo(before, done, table, f, table')
    ensures l in f && f[l] == before[l]
    ensures SavedUpTo(before, done + {l}, table, f[l := f[l].(needSave := false)], RowSaved(f[l], table'))
  {
    assert f[l := f[l].(needSave := false)] == Unmarked(before, done + {l});
    RowSavedNext(before, done, l, table, table');
  }

  lemma RowSavedNext(f: Factions, done: set<int>, l: int, table: Table, prior: Table)
    requires done <= f.Keys && l in f && l !in done && SavedSome(f, done, table, prior)
    requires DistinctIds(f)
    ensures SavedSome(f, done + {l}, table, RowSaved(f[l], prior))
  {
    var table' := RowSaved(f[l], prior);
    forall id | forall k <- done + {l} :: f[k].id == id ==> !f[k].needSave
      ensures (id in table' <==> id in table) && (id in table ==> table'[id] == table[id])
    {
      assert forall k <- done :: k in done + {l};
      assert l in done + {l};
    }
  }
}
