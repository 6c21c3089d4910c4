/** The query behind HonorMaintenancer::LoadWeeklyScores: a UNION of four sub-queries over the kills and
    contributions of the week and the ranked characters, joined with the characters, grouped and summed. A UNION
    merges equal rows; what comes out is nevertheless the plain tally of the week. */
module HonorHarvest {
  import opened HonorMaintenance

  /** A row of a sub-query. */
  datatype Part = Part(guid: nat, hk: nat, dk: nat, cp: real)

  datatype Week = Week(first: nat, last: nat) {
    predicate Has(r: CpRow) { first <= r.date <= last }
  }

  function Count(rows: seq<CpRow>, p: CpRow -> bool): nat {
    if rows == [] then 0 else Count(rows[..|rows| - 1], p) + (if p(rows[|rows| - 1]) then 1 else 0)
  }

  function Total(rows: seq<CpRow>, p: CpRow -> bool): real {
    if rows == [] then 0.0
    else Total(rows[..|rows| - 1], p) + (if p(rows[|rows| - 1]) then rows[|rows| - 1].cp else 0.0)
  }

  /** The rows of a character and a kind within the week. */
  function Of(week: Week, guid: nat, kind: Kind): CpRow -> bool {
    (r: CpRow) => week.Has(r) && r.guid == guid && r.kind == kind
  }

  // ---------- the sub-queries ----------

  function KillPart(rows: seq<CpRow>, week: Week, guid: nat): Part {
    Part(guid, Count(rows, Of(week, guid, Honorable)), 0, Total(rows, Of(week, guid, Honorable)))
  }

  function DishonorPart(rows: seq<CpRow>, week: Week, guid: nat): Part {
    Part(guid, 0, Count(rows, Of(week, guid, Dishonorable)), 0.0)
  }

  function OtherPart(rows: seq<CpRow>, week: Week, guid: nat): Part {
    Part(guid, 0, 0, Total(rows, Of(week, guid, OtherKind)))
  }

  /** The characters with a row of that kind in the week. */
  function Guids(rows: seq<CpRow>, week: Week, kind: Kind): set<nat> {
    set r | r in rows && week.Has(r) && r.kind == kind :: r.guid
  }

  function Kills(rows: seq<CpRow>, week: Week): set<Part> {
    set guid | guid in Guids(rows, week, Honorable) :: KillPart(rows, week, guid)
  }

  function Dishonors(rows: seq<CpRow>, week: Week): set<Part> {
    set guid | guid in Guids(rows, week, Dishonorable) :: DishonorPart(rows, week, guid)
  }

  function Others(rows: seq<CpRow>, week: Week): set<Part> {
    set guid | guid in Guids(rows, week, OtherKind) :: OtherPart(rows, week, guid)
  }

  function Ranked(db: Characters): set<Part> {
    set guid | guid in db && db[guid].rankPoints > 0.0 :: Part(guid, 0, 0, 0.0)
  }

  function Union(db: Characters, rows: seq<CpRow>, week: Week): set<Part> {
    Kills(rows, week) + Dishonors(rows, week) + Others(rows, week) + Ranked(db)
  }

  // ---------- grouping and summing ----------

  ghost function Sum(parts: set<Part>): Harvest {
    if parts == {} then Harvest(0, 0, 0.0)
    else
      var p :| p in parts;
      var rest := Sum(parts - {p});
      Harvest(p.hk + rest.hk, p.dk + rest.dk, p.cp + rest.cp)
  }

  function Group(parts: set<Part>, guid: nat): set<Part> { set p | p in parts && p.guid == guid }

  ghost function Query(db: Characters, rows: seq<CpRow>, week: Week): (harvest: map<nat, Harvest>)
    ensures harvest.Keys <= db.Keys
  {
    var parts := Union(db, rows, week);
    map guid | guid in db && Group(parts, guid) != {} :: Sum(Group(parts, guid))
  }

  function Plus(h: Harvest, p: Part): Harvest { Harvest(h.hk + p.hk, h.dk + p.dk, h.cp + p.cp) }

  lemma {:induction false} SumTakesOut(parts: set<Part>, p: Part)
    requires p in parts
    ensures Sum(parts) == Plus(Sum(parts - {p}), p)
  {
    var q :| q in parts && Sum(parts) == Plus(Sum(parts - {q}), q);
    if q != p {
      SumTakesOut(parts - {q}, p);
      SumTakesOut(parts - {p}, q);
      var rest := parts - {q} - {p};
      assert parts - {p} - {q} == rest;
      assert Sum(parts) == Plus(Plus(Sum(rest), p), q);
      assert Sum(parts - {p}) == Plus(Sum(rest), q);
    }
  }

  /** One more row counts unless it is there already. */
  lemma SumAdds(parts: set<Part>, p: Part)
    ensures Sum(parts + {p}) == if p in parts then Sum(parts) else Plus(Sum(parts), p)
  {
    if p in parts {
      assert parts + {p} == parts;
    } else {
      SumTakesOut(parts + {p}, p);
      assert parts + {p} - {p} == parts;
    }
  }

  function Only(p: Part, there: bool): set<Part> { if there then {p} else {} }

  lemma GroupsOfParts(db: Characters, rows: seq<CpRow>, week: Week, guid: nat)
    ensures Group(Kills(rows, week), guid) == Only(KillPart(rows, week, guid), guid in Guids(rows, week, Honorable))
    ensures Group(Dishonors(rows, week), guid)
            == Only(DishonorPart(rows, week, guid), guid in Guids(rows, week, Dishonorable))
    ensures Group(Others(rows, week), guid) == Only(OtherPart(rows, week, guid), guid in Guids(rows, week, OtherKind))
    ensures Group(Ranked(db), guid) == Only(Part(guid, 0, 0, 0.0), guid in db && db[guid].rankPoints > 0.0)
  {
  }

  lemma GroupOfBoth(a: set<Part>, b: set<Part>, guid: nat)
    ensures Group(a + b, guid) == Group(a, guid) + Group(b, guid)
  {
  }

  lemma GroupOfUnion(db: Characters, rows: seq<CpRow>, week: Week, guid: nat)
    ensures Group(Union(db, rows, week), guid) ==
              Only(KillPart(rows, week, guid), guid in Guids(rows, week, Honorable))
              + Only(DishonorPart(rows, week, guid), guid in Guids(rows, week, Dishonorable))
              + Only(OtherPart(rows, week, guid), guid in Guids(rows, week, OtherKind))
              + Only(Part(guid, 0, 0, 0.0), guid in db && db[guid].rankPoints > 0.0)
  {
    GroupsOfParts(db, rows, week, guid);
    GroupOfBoth(Kills(rows, week), Dishonors(rows, week), guid);
    GroupOfBoth(Kills(rows, week) + Dishonors(rows, week), Others(rows, week), guid);
    GroupOfBoth(Kills(rows, week) + Dishonors(rows, week) + Others(rows, week), Ranked(db), guid);
  }

  lemma {:induction false} CountsMembers(rows: seq<CpRow>, p: CpRow -> bool)
    ensures Count(rows, p) > 0 <==> exists r <- rows :: p(r)
    ensures Count(rows, p) == 0 ==> Total(rows, p) == 0.0
  {
    if rows != [] {
      CountsMembers(rows[..|rows| - 1], p);
      assert forall r <- rows :: r in rows[..|rows| - 1] || r == rows[|rows| - 1];
    }
  }

  lemma ListedIsCounted(rows: seq<CpRow>, week: Week, guid: nat, kind: Kind)
    ensures guid in Guids(rows, week, kind) <==> Count(rows, Of(week, guid, kind)) > 0
    ensures guid !in Guids(rows, week, kind) ==> Total(rows, Of(week, guid, kind)) == 0.0
  {
    CountsMembers(rows, Of(week, guid, kind));
  }

  /** The tally of the four possible rows of a character: equal ones hold nothing but zeros. */
  lemma SumOfFour(kills: Part, dishonor: Part, other: Part, none: Part, a: bool, b: bool, c: bool, d: bool)
    requires kills.hk > 0 <==> a
    requires dishonor.hk == 0 && dishonor.cp == 0.0 && (dishonor.dk > 0 <==> b) && kills.dk == 0
    requires other.hk == 0 && other.dk == 0 && none == Part(other.guid, 0, 0, 0.0)
    requires !a ==> kills.cp == 0.0
    requires !c ==> other.cp == 0.0
    ensures Sum(Only(kills, a) + Only(dishonor, b) + Only(other, c) + Only(none, d))
            == Harvest(kills.hk, dishonor.dk, kills.cp + other.cp)
  {
    var none0: set<Part> := {};
    SumAdds(none0, kills);
    var one := Only(kills, a);
    assert none0 + {kills} == {kills};
    SumAdds(one, dishonor);
    var two := one + Only(dishonor, b);
    SumAdds(two, other);
    var three := two + Only(other, c);
    SumAdds(three, none);
    assert two + {} == two && one + {} == one && three + {} == three;
  }

  lemma SomeGroup(db: Characters, rows: seq<CpRow>, week: Week, guid: nat)
    ensures Group(Union(db, rows, week), guid) != {} <==>
              || (guid in db && db[guid].rankPoints > 0.0) || guid in Guids(rows, week, Honorable)
              || guid in Guids(rows, week, Dishonorable) || guid in Guids(rows, week, OtherKind)
  {
    GroupOfUnion(db, rows, week, guid);
    var parts := Group(Union(db, rows, week), guid);
    if guid in Guids(rows, week, Honorable) { assert KillPart(rows, week, guid) in parts; }
    if guid in Guids(rows, week, Dishonorable) { assert DishonorPart(rows, week, guid) in parts; }
    if guid in Guids(rows, week, OtherKind) { assert OtherPart(rows, week, guid) in parts; }
    if guid in db && db[guid].rankPoints > 0.0 { assert Part(guid, 0, 0, 0.0) in parts; }
  }

  lemma SomeRow(rows: seq<CpRow>, week: Week, guid: nat)
    ensures (exists r <- rows :: week.Has(r) && r.guid == guid) <==>
              || guid in Guids(rows, week, Honorable) || guid in Guids(rows, week, Dishonorable)
              || guid in Guids(rows, week, OtherKind)
  {
    if r :| r in rows && week.Has(r) && r.guid == guid {
      assert guid in Guids(rows, week, r.kind);
    }
  }

  lemma GroupSum(db: Characters, rows: seq<CpRow>, week: Week, guid: nat)
    ensures Sum(Group(Union(db, rows, week), guid)) == Tally(rows, week, guid)
  {
    GroupOfUnion(db, rows, week, guid);
    ListedIsCounted(rows, week, guid, Honorable);
    ListedIsCounted(rows, week, guid, Dishonorable);
    ListedIsCounted(rows, week, guid, OtherKind);
    SumOfFour(KillPart(rows, week, guid), DishonorPart(rows, week, guid), OtherPart(rows, week, guid),
              Part(guid, 0, 0, 0.0),
              guid in Guids(rows, week, Honorable), guid in Guids(rows, week, Dishonorable),
              guid in Guids(rows, week, OtherKind), guid in db && db[guid].rankPoints > 0.0);
  }

  /** The kills of both kinds, and all contributions but those of dishonorable kills. */
  function Tally(rows: seq<CpRow>, week: Week, guid: nat): Harvest {
    Harvest(Count(rows, Of(week, guid, Honorable)), Count(rows, Of(week, guid, Dishonorable)),
            Total(rows, Of(week, guid, Honorable)) + Total(rows, Of(week, guid, OtherKind)))
  }

  /** The query yields the characters that have a row of the week or rank points, each with its tally. */
  lemma QueryIsTally(db: Characters, rows: seq<CpRow>, week: Week, guid: nat)
    ensures guid in Query(db, rows, week) <==>
              guid in db && (db[guid].rankPoints > 0.0 || exists r <- rows :: week.Has(r) && r.guid == guid)
    ensures guid in Query(db, rows, week) ==> Query(db, rows, week)[guid] == Tally(rows, week, guid)
  {
    SomeGroup(db, rows, week, guid);
    SomeRow(rows, week, guid);
    GroupSum(db, rows, week, guid);
  }

  lemma {:induction false} TotalIsPositive(rows: seq<CpRow>, p: CpRow -> bool)
    requires forall r <- rows :: r.cp >= 0.0
    ensures Total(rows, p) >= 0.0
  {
    if rows != [] { TotalIsPositive(rows[..|rows| - 1], p); }
  }

  /** Where no contribution is negative, the harvest is what a maintenance asks for. */
  lemma HarvestIsPositive(db: Characters, rows: seq<CpRow>, week: Week)
    requires forall r <- rows :: r.cp >= 0.0
    ensures var harvest := Query(db, rows, week);
            harvest.Keys <= db.Keys && forall guid <- harvest.Keys :: harvest[guid].cp >= 0.0
  {
    forall guid <- Query(db, rows, week).Keys
      ensures Query(db, rows, week)[guid].cp >= 0.0
    {
      QueryIsTally(db, rows, week, guid);
      TotalIsPositive(rows, Of(week, guid, Honorable));
      TotalIsPositive(rows, Of(week, guid, OtherKind));
    }
  }
}
