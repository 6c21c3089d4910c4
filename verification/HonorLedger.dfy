/** The ledger of kills: the rows of character_honor_cp, the kills stored with each character, and the totals a
    player is shown (HonorMgr::Update), over any run of play and weekly maintenances. */
module HonorLedger {
  import opened HonorMaintenance
  import opened HonorHarvest
  import opened Runs

  // ---------- counting ----------

  lemma {:induction false} CountSame(rows: seq<CpRow>, p: CpRow -> bool, q: CpRow -> bool)
    requires forall r <- rows :: p(r) == q(r)
    ensures Count(rows, p) == Count(rows, q)
    ensures Total(rows, p) == Total(rows, q)
  {
    if rows != [] {
      assert rows[|rows| - 1] in rows;
      CountSame(rows[..|rows| - 1], p, q);
    }
  }

  lemma {:induction false} CountSplits(rows: seq<CpRow>, p: CpRow -> bool, q: CpRow -> bool, r: CpRow -> bool)
    requires forall x :: p(x) <==> q(x) || r(x)
    requires forall x :: !(q(x) && r(x))
    ensures Count(rows, p) == Count(rows, q) + Count(rows, r)
  {
    if rows != [] {
      CountSplits(rows[..|rows| - 1], p, q, r);
    }
  }

  lemma OneMore(rows: seq<CpRow>, r: CpRow, p: CpRow -> bool)
    ensures Count(rows + [r], p) == Count(rows, p) + if p(r) then 1 else 0
    ensures Total(rows + [r], p) == Total(rows, p) + if p(r) then r.cp else 0.0
    ensures Select(rows + [r], p) == if p(r) then Select(rows, p) + [r] else Select(rows, p)
  {
    assert (rows + [r])[..|rows|] == rows;
  }

  /** Counting among the selected rows is counting those that are selected. */
  lemma {:induction false} CountSelected(rows: seq<CpRow>, p: CpRow -> bool, q: CpRow -> bool, both: CpRow -> bool)
    requires forall x :: both(x) <==> p(x) && q(x)
    ensures Count(Select(rows, p), q) == Count(rows, both)
  {
    if rows != [] {
      var before, r := rows[..|rows| - 1], rows[|rows| - 1];
      CountSelected(before, p, q, both);
      assert rows == before + [r];
      OneMore(before, r, p);
      OneMore(before, r, both);
      OneMore(Select(before, p), r, q);
      assert both(r) <==> p(r) && q(r);
    }
  }

  /** And so is summing. */
  lemma {:induction false} TotalSelected(rows: seq<CpRow>, p: CpRow -> bool, q: CpRow -> bool, both: CpRow -> bool)
    requires forall x :: both(x) <==> p(x) && q(x)
    ensures Total(Select(rows, p), q) == Total(rows, both)
  {
    if rows != [] {
      var before, r := rows[..|rows| - 1], rows[|rows| - 1];
      TotalSelected(before, p, q, both);
      assert rows == before + [r];
      OneMore(before, r, p);
      OneMore(before, r, both);
      OneMore(Select(before, p), r, q);
      assert both(r) <==> p(r) && q(r);
    }
  }

  lemma {:induction false} SelectTwice(rows: seq<CpRow>, p: CpRow -> bool, q: CpRow -> bool)
    requires forall x :: q(x) ==> p(x)
    ensures Select(Select(rows, p), q) == Select(rows, q)
  {
    if rows != [] {
      var before, r := rows[..|rows| - 1], rows[|rows| - 1];
      SelectTwice(before, p, q);
      assert rows == before + [r];
      OneMore(before, r, p);
      OneMore(Select(before, p), r, q);
    }
  }

  lemma {:induction false} NothingSelected(rows: seq<CpRow>, p: CpRow -> bool)
    ensures Count(rows, p) == 0 <==> forall r <- rows :: !p(r)
  {
    CountsMembers(rows, p);
  }

  // ---------- the totals a player is shown ----------

  function OwnedBy(guid: nat): CpRow -> bool { (r: CpRow) => r.guid == guid }

  function OfKind(kind: Kind): CpRow -> bool { (r: CpRow) => r.kind == kind }

  function OfKindSince(kind: Kind, day: nat): CpRow -> bool { (r: CpRow) => r.kind == kind && r.date >= day }

  /** A player's honor: the rows loaded or recorded since, and the stored columns. */
  class HonorMgr {
    var honorCP: seq<CpRow>
    var storedHK: nat
    var storedDK: nat
    var totalHK: nat
    var totalDK: nat

    constructor (db: Characters, rows: seq<CpRow>, guid: nat)
      requires guid in db
      ensures honorCP == Select(rows, OwnedBy(guid)) && storedHK == db[guid].storedHk && storedDK == db[guid].storedDk
    {
      honorCP := Select(rows, OwnedBy(guid));
      storedHK, storedDK, totalHK, totalDK := db[guid].storedHk, db[guid].storedDk, 0, 0;
    }

    /** Honorable kills count from the first day of the week on, dishonorable ones whenever they were. */
    method Update(thisWeekBegin: nat)
      modifies this`totalHK, this`totalDK
      ensures totalHK == storedHK + Count(honorCP, OfKindSince(Honorable, thisWeekBegin))
      ensures totalDK == storedDK + Count(honorCP, OfKind(Dishonorable))
    {
      totalDK := storedDK;
      totalHK := storedHK;
      var i := 0;
      while i < |honorCP|
        invariant 0 <= i <= |honorCP|
        invariant totalHK == storedHK + Count(honorCP[..i], OfKindSince(Honorable, thisWeekBegin))
        invariant totalDK == storedDK + Count(honorCP[..i], OfKind(Dishonorable))
      {
        var itr := honorCP[i];
        assert honorCP[..i + 1][..i] == honorCP[..i];
        if itr.kind == Honorable && itr.date >= thisWeekBegin {
          totalHK := totalHK + 1;
        }
        if itr.kind == Dishonorable {
          totalDK := totalDK + 1;
        }
        i := i + 1;
      }
      assert honorCP[..i] == honorCP;
    }
  }

  // ---------- runs ----------

  /** rows is the table, recorded is every row that was ever put into it. */
  datatype Ledger = Ledger(
    db: Characters, rows: seq<CpRow>, last: nat, next: nat, marker: bool, today: nat, recorded: seq<CpRow>)

  /** What Update shows a character as lifetime kills. */
  function LifetimeHonorable(s: Ledger, guid: nat): nat
    requires guid in s.db
  {
    s.db[guid].storedHk + Count(Select(s.rows, OwnedBy(guid)), OfKindSince(Honorable, s.last))
  }

  function LifetimeDishonorable(s: Ledger, guid: nat): nat
    requires guid in s.db
  {
    s.db[guid].storedDk + Count(Select(s.rows, OwnedBy(guid)), OfKind(Dishonorable))
  }

  /** A kill or other honor, dated today (HonorMgr::Add). */
  ghost predicate RecordStep(a: Ledger, r: CpRow, b: Ledger) {
    r.guid in a.db && r.date == a.today && b == a.(rows := a.rows + [r], recorded := a.recorded + [r])
  }

  /** Whatever else happens to characters; new ones have no kills. */
  ghost predicate PlayStep(a: Ledger, b: Ledger) {
    && b == a.(db := b.db) && a.db.Keys <= b.db.Keys
    && (forall guid <- a.db.Keys ::
          b.db[guid].storedHk == a.db[guid].storedHk && b.db[guid].storedDk == a.db[guid].storedDk)
    && (forall guid <- b.db.Keys - a.db.Keys :: b.db[guid].storedHk == b.db[guid].storedDk == 0)
  }

  /** A day passes, or the check for the maintenance day sets the marker. */
  ghost predicate ClockStep(a: Ledger, b: Ledger) {
    || (b == a.(today := b.today) && a.today <= b.today)
    || b == a.(marker := a.marker || a.today >= a.next)
  }

  function WeekOf(s: Ledger): Week { Week(s.last, s.last + 6) }

  /** DoMaintenance, with the scores that its query finds. */
  ghost predicate MaintenanceStep(a: Ledger, b: Ledger) {
    if !a.marker then b == a
    else
      exists team: nat -> Team, minHk: nat, earnings: map<nat, real> ::
        && WeekStep(a.db, b.db, Query(a.db, a.rows, WeekOf(a)), team, minHk, earnings)
        && b == a.(db := b.db, rows := Select(a.rows, Since(a.last + 6)), last := a.next, next := a.next + 7,
                   marker := false)
  }

  ghost predicate Step(a: Ledger, b: Ledger) {
    PlayStep(a, b) || ClockStep(a, b) || MaintenanceStep(a, b) || exists r :: RecordStep(a, r, b)
  }

  /** A server without a row of honor, some time after the last maintenance day. */
  ghost predicate IsStart(s: Ledger) {
    && s.rows == s.recorded == [] && s.next == s.last + 7 && s.last <= s.today && !s.marker
    && forall guid <- s.db.Keys :: s.db[guid].storedHk == s.db[guid].storedDk == 0
  }

  /** The rows of a character and a kind before a day. */
  function Earlier(guid: nat, kind: Kind, day: nat): CpRow -> bool {
    (r: CpRow) => r.guid == guid && r.kind == kind && r.date < day
  }

  function Ever(guid: nat, kind: Kind): CpRow -> bool { (r: CpRow) => r.guid == guid && r.kind == kind }

  ghost predicate Calendar(s: Ledger) {
    s.next == s.last + 7 && s.last <= s.today && (s.marker ==> s.next <= s.today)
  }

  function DayBefore(day: nat): nat { if day > 0 then day - 1 else 0 }

  /** The table still has all rows since the day before the week. */
  ghost predicate Complete(s: Ledger) {
    s.rows == Select(s.recorded, Since(DayBefore(s.last)))
  }

  /** Stored with each character are the kills before the week. */
  ghost predicate Stored(s: Ledger) {
    forall guid <- s.db.Keys ::
      && s.db[guid].storedHk == Count(s.recorded, Earlier(guid, Honorable, s.last))
      && s.db[guid].storedDk == Count(s.recorded, Earlier(guid, Dishonorable, s.last))
  }

  /** Nobody has a row before being created. */
  ghost predicate Known(s: Ledger) {
    forall r <- s.recorded :: r.guid in s.db && r.date <= s.today
  }

  ghost predicate Books(s: Ledger) { Calendar(s) && Complete(s) && Stored(s) && Known(s) }

  /** All rows of the week are still there when it ends, and of later days too. */
  lemma TableCounts(s: Ledger, p: CpRow -> bool)
    requires Calendar(s) && Complete(s) && forall r :: p(r) ==> r.date >= s.last
    ensures Count(s.rows, p) == Count(s.recorded, p) && Total(s.rows, p) == Total(s.recorded, p)
  {
    var since := Since(DayBefore(s.last));
    CountSelected(s.recorded, since, p, p);
    TotalSelected(s.recorded, since, p, p);
  }

  /** What is before the next week is before this one or in it. */
  lemma WeekIsAdded(rows: seq<CpRow>, guid: nat, kind: Kind, last: nat)
    ensures Count(rows, Earlier(guid, kind, last + 7)) ==
              Count(rows, Earlier(guid, kind, last)) + Count(rows, Of(Week(last, last + 6), guid, kind))
  {
    CountSplits(rows, Earlier(guid, kind, last + 7), Earlier(guid, kind, last), Of(Week(last, last + 6), guid, kind));
  }

  /** A maintenance adds the kills of the week to everybody's stored ones, scored or not. */
  lemma WeekIsStored(a: Ledger, b: Ledger, guid: nat)
    requires a.marker && MaintenanceStep(a, b) && guid in a.db
    ensures guid in b.db
    ensures b.db[guid].storedHk == a.db[guid].storedHk + Count(a.rows, Of(WeekOf(a), guid, Honorable))
    ensures b.db[guid].storedDk == a.db[guid].storedDk + Count(a.rows, Of(WeekOf(a), guid, Dishonorable))
  {
    var week, harvest := WeekOf(a), Query(a.db, a.rows, WeekOf(a));
    QueryIsTally(a.db, a.rows, week, guid);
    if guid in harvest {
      assert Tallied(a.db[guid], b.db[guid], harvest[guid]);
    } else {
      assert b.db[guid] == a.db[guid].(standing := 0);
      NothingSelected(a.rows, Of(week, guid, Honorable));
      NothingSelected(a.rows, Of(week, guid, Dishonorable));
    }
  }

  lemma StoredNext(a: Ledger, guid: nat)
    requires Calendar(a) && Complete(a) && Stored(a) && guid in a.db
    ensures a.db[guid].storedHk + Count(a.rows, Of(WeekOf(a), guid, Honorable)) ==
              Count(a.recorded, Earlier(guid, Honorable, a.last + 7))
    ensures a.db[guid].storedDk + Count(a.rows, Of(WeekOf(a), guid, Dishonorable)) ==
              Count(a.recorded, Earlier(guid, Dishonorable, a.last + 7))
  {
    TableCounts(a, Of(WeekOf(a), guid, Honorable));
    TableCounts(a, Of(WeekOf(a), guid, Dishonorable));
    WeekIsAdded(a.recorded, guid, Honorable, a.last);
    WeekIsAdded(a.recorded, guid, Dishonorable, a.last);
  }

  /** What a due maintenance does to the ledger. */
  ghost predicate Advanced(a: Ledger, b: Ledger) {
    && b == a.(db := b.db, rows := Select(a.rows, Since(a.last + 6)), last := a.next, next := a.next + 7,
               marker := false)
    && b.db.Keys == a.db.Keys
    && (forall guid <- a.db.Keys ::
          && b.db[guid].storedHk == a.db[guid].storedHk + Count(a.rows, Of(WeekOf(a), guid, Honorable))
          && b.db[guid].storedDk == a.db[guid].storedDk + Count(a.rows, Of(WeekOf(a), guid, Dishonorable)))
  }

  lemma MaintenanceAdvances(a: Ledger, b: Ledger)
    requires a.marker && MaintenanceStep(a, b)
    ensures Advanced(a, b)
  {
    forall guid <- a.db.Keys
      ensures b.db[guid].storedHk == a.db[guid].storedHk + Count(a.rows, Of(WeekOf(a), guid, Honorable))
      ensures b.db[guid].storedDk == a.db[guid].storedDk + Count(a.rows, Of(WeekOf(a), guid, Dishonorable))
    {
      WeekIsStored(a, b, guid);
    }
  }

  lemma TableNext(a: Ledger, b: Ledger)
    requires Calendar(a) && Complete(a) && Advanced(a, b)
    ensures Complete(b)
  {
    assert DayBefore(b.last) == a.last + 6;
    SelectTwice(a.recorded, Since(DayBefore(a.last)), Since(a.last + 6));
  }

  lemma AdvanceKeepsBooks(a: Ledger, b: Ledger)
    requires Books(a) && a.marker && Advanced(a, b)
    ensures Books(b)
  {
    TableNext(a, b);
    forall guid <- b.db.Keys
      ensures b.db[guid].storedHk == Count(b.recorded, Earlier(guid, Honorable, b.last))
      ensures b.db[guid].storedDk == Count(b.recorded, Earlier(guid, Dishonorable, b.last))
    {
      StoredNext(a, guid);
    }
  }

  lemma MaintenanceKeepsBooks(a: Ledger, b: Ledger)
    requires Books(a) && MaintenanceStep(a, b)
    ensures Books(b)
  {
    if a.marker {
      MaintenanceAdvances(a, b);
      AdvanceKeepsBooks(a, b);
    }
  }

  lemma RecordKeepsBooks(a: Ledger, r: CpRow, b: Ledger)
    requires Books(a) && RecordStep(a, r, b)
    ensures Books(b)
  {
    OneMore(a.recorded, r, Since(DayBefore(a.last)));
    forall guid <- b.db.Keys
      ensures b.db[guid].storedHk == Count(b.recorded, Earlier(guid, Honorable, b.last))
      ensures b.db[guid].storedDk == Count(b.recorded, Earlier(guid, Dishonorable, b.last))
    {
      OneMore(a.recorded, r, Earlier(guid, Honorable, b.last));
      OneMore(a.recorded, r, Earlier(guid, Dishonorable, b.last));
    }
  }

  lemma PlayKeepsBooks(a: Ledger, b: Ledger)
    requires Books(a) && PlayStep(a, b)
    ensures Books(b)
  {
    forall guid <- b.db.Keys
      ensures b.db[guid].storedHk == Count(b.recorded, Earlier(guid, Honorable, b.last))
      ensures b.db[guid].storedDk == Count(b.recorded, Earlier(guid, Dishonorable, b.last))
    {
      if guid !in a.db {
        assert guid in b.db.Keys - a.db.Keys;
        NothingSelected(b.recorded, Earlier(guid, Honorable, b.last));
        NothingSelected(b.recorded, Earlier(guid, Dishonorable, b.last));
      }
    }
  }

  lemma StepKeepsBooks(a: Ledger, b: Ledger)
    requires Books(a) && Step(a, b)
    ensures Books(b)
  {
    if PlayStep(a, b) {
      PlayKeepsBooks(a, b);
    } else if MaintenanceStep(a, b) {
      MaintenanceKeepsBooks(a, b);
    } else if !ClockStep(a, b) {
      var r :| RecordStep(a, r, b);
      RecordKeepsBooks(a, r, b);
    }
  }

  lemma StartKeepsBooks(s: Ledger)
    requires IsStart(s)
    ensures Books(s)
  {
  }

  lemma RunKeepsBooks(run: seq<Ledger>, i: nat)
    requires IsRun(run, (a, b) => Step(a, b)) && i < |run| && IsStart(run[0])
    ensures Books(run[i])
  {
    StartKeepsBooks(run[0]);
    forall a, b, c | (Books(a) ==> Books(b)) && Step(b, c)
      ensures Books(a) ==> Books(c)
    {
      if Books(a) { StepKeepsBooks(b, c); }
    }
    Along(run, (a, b) => Step(a, b), (a, b) => Books(a) ==> Books(b), 0, i);
  }

  // ---------- lifetime kills ----------

  /** The row of the day before the week, which the last maintenance has stored but not deleted. */
  function OnLastDay(guid: nat, kind: Kind, last: nat): CpRow -> bool {
    (r: CpRow) => r.guid == guid && r.kind == kind && r.date + 1 == last
  }

  function Later(guid: nat, kind: Kind, day: nat): CpRow -> bool {
    (r: CpRow) => r.guid == guid && r.kind == kind && r.date >= day
  }

  lemma HonorableOfTable(s: Ledger, guid: nat)
    requires Books(s) && guid in s.db
    ensures LifetimeHonorable(s, guid) == Count(s.recorded, Ever(guid, Honorable))
  {
    var since := Later(guid, Honorable, s.last);
    CountSelected(s.rows, OwnedBy(guid), OfKindSince(Honorable, s.last), since);
    TableCounts(s, since);
    CountSplits(s.recorded, Ever(guid, Honorable), Earlier(guid, Honorable, s.last), since);
  }

  lemma DishonorableOfTable(s: Ledger, guid: nat)
    requires Books(s) && guid in s.db
    ensures LifetimeDishonorable(s, guid) ==
              Count(s.recorded, Ever(guid, Dishonorable)) + Count(s.recorded, OnLastDay(guid, Dishonorable, s.last))
  {
    var ever, since := Ever(guid, Dishonorable), Later(guid, Dishonorable, s.last);
    var leftover := OnLastDay(guid, Dishonorable, s.last);
    var kept := Later(guid, Dishonorable, DayBefore(s.last));
    CountSelected(s.rows, OwnedBy(guid), OfKind(Dishonorable), ever);
    CountSelected(s.recorded, Since(DayBefore(s.last)), ever, kept);
    CountSplits(s.recorded, kept, leftover, since);
    CountSplits(s.recorded, ever, Earlier(guid, Dishonorable, s.last), since);
  }

  /** In every run each honorable kill counts exactly once in the lifetime total, whatever maintenances came in
      between. A dishonorable one counts twice if it was on the last day before the current week, and once
      otherwise. */
  lemma LifetimeKills(run: seq<Ledger>, i: nat, guid: nat)
    requires IsRun(run, (a, b) => Step(a, b)) && i < |run| && IsStart(run[0]) && guid in run[i].db
    ensures LifetimeHonorable(run[i], guid) == Count(run[i].recorded, Ever(guid, Honorable))
    ensures LifetimeDishonorable(run[i], guid) ==
              Count(run[i].recorded, Ever(guid, Dishonorable))
              + Count(run[i].recorded, OnLastDay(guid, Dishonorable, run[i].last))
  {
    RunKeepsBooks(run, i);
    HonorableOfTable(run[i], guid);
    DishonorableOfTable(run[i], guid);
  }

  /** So the total of dishonorable kills is right exactly if none was on that day. */
  lemma DishonorableTotalIsRight(run: seq<Ledger>, i: nat, guid: nat)
    requires IsRun(run, (a, b) => Step(a, b)) && i < |run| && IsStart(run[0]) && guid in run[i].db
    ensures LifetimeDishonorable(run[i], guid) == Count(run[i].recorded, Ever(guid, Dishonorable)) <==>
              forall r <- run[i].recorded :: !(r.guid == guid && r.kind == Dishonorable && r.date + 1 == run[i].last)
  {
    LifetimeKills(run, i, guid);
    NothingSelected(run[i].recorded, OnLastDay(guid, Dishonorable, run[i].last));
  }

  /** A scored row after a week in which the character was not active. */
  function AfterIdleWeek(row: CharacterRow, h: Harvest, minHk: nat): CharacterRow {
    var newRp := NewRankPoints(row, false, 0.0);
    row.(rankPoints := RoundToTenth(newRp), highestRank := HigherRank(newRp, row.highestRank, minHk), standing := 0,
         lastWeekHk := h.hk, lastWeekCp := RoundToTenth(h.cp),
         storedHk := row.storedHk + h.hk, storedDk := row.storedDk + h.dk)
  }

  ghost function AfterIdleMaintenance(a: Ledger, minHk: nat): Ledger {
    var harvest := Query(a.db, a.rows, WeekOf(a));
    var db := map guid | guid in a.db ::
      if guid in harvest then AfterIdleWeek(a.db[guid], harvest[guid], minHk) else a.db[guid].(standing := 0);
    Ledger(db, Select(a.rows, Since(a.last + 6)), a.next, a.next + 7, false, a.today, a.recorded)
  }

  /** If nobody has enough kills, the maintenance only decays. */
  lemma IdleMaintenance(a: Ledger, minHk: nat)
    requires a.marker
    requires forall guid <- Query(a.db, a.rows, WeekOf(a)).Keys :: Query(a.db, a.rows, WeekOf(a))[guid].hk < minHk
    ensures MaintenanceStep(a, AfterIdleMaintenance(a, minHk))
  {
    var b, harvest, team := AfterIdleMaintenance(a, minHk), Query(a.db, a.rows, WeekOf(a)), (_: nat) => Alliance;
    var earnings: map<nat, real> := map[];
    assert FairEarnings(a.db, harvest, team, minHk, earnings);
    forall guid <- a.db.Keys
      ensures RowAfter(a.db[guid], b.db[guid], guid in harvest, false, 0.0, minHk)
      ensures guid in harvest ==> Tallied(a.db[guid], b.db[guid], harvest[guid])
    {
    }
    assert WeekStep(a.db, b.db, harvest, team, minHk, earnings);
  }

  lemma IdleIsStep(a: Ledger, minHk: nat)
    requires a.marker
    requires forall guid <- Query(a.db, a.rows, WeekOf(a)).Keys :: Query(a.db, a.rows, WeekOf(a))[guid].hk < minHk
    ensures Step(a, AfterIdleMaintenance(a, minHk))
  {
    IdleMaintenance(a, minHk);
  }

  lemma OnlyDishonor(s: Ledger, kill: CpRow)
    requires s.rows == [kill] && kill.kind == Dishonorable
    ensures forall guid <- Query(s.db, s.rows, WeekOf(s)).Keys :: Query(s.db, s.rows, WeekOf(s))[guid].hk == 0
  {
    forall guid <- Query(s.db, s.rows, WeekOf(s)).Keys
      ensures Query(s.db, s.rows, WeekOf(s))[guid].hk == 0
    {
      QueryIsTally(s.db, s.rows, WeekOf(s), guid);
      NothingSelected(s.rows, Of(WeekOf(s), guid, Honorable));
    }
  }

  lemma LastDayRun(row: CharacterRow, kill: CpRow) returns (run: seq<Ledger>)
    requires row.storedHk == row.storedDk == 0 && kill == CpRow(1, 6, Dishonorable, 100.0)
    ensures |run| == 5 && IsStart(run[0]) && IsRun(run, (a, b) => Step(a, b))
    ensures 1 in run[4].db && run[4].recorded == [kill] && run[4].last == 7
  {
    var a := Ledger(map[1 := row], [], 0, 7, false, 6, []);
    var b := a.(rows := [kill], recorded := [kill]);
    var c := b.(today := 7);
    var d := c.(marker := true);
    assert [] + [kill] == [kill] && RecordStep(a, kill, b);
    OnlyDishonor(d, kill);
    var e := AfterIdleMaintenance(d, 1);
    run := [a, b, c, d, e];
    assert Step(a, b) && Step(b, c) && Step(c, d);
    IdleIsStep(d, 1);
  }

  /** A dishonorable kill on the seventh day, a maintenance the day after: the player is shown two. */
  lemma LastDayCountsTwice(row: CharacterRow) returns (run: seq<Ledger>)
    requires row.storedHk == row.storedDk == 0
    ensures |run| == 5 && IsStart(run[0]) && IsRun(run, (a, b) => Step(a, b))
    ensures 1 in run[4].db && Count(run[4].recorded, Ever(1, Dishonorable)) == 1 && LifetimeDishonorable(run[4], 1) == 2
  {
    var kill := CpRow(1, 6, Dishonorable, 100.0);
    run := LastDayRun(row, kill);
    LifetimeKills(run, 4, 1);
    OneMore([], kill, Ever(1, Dishonorable));
    OneMore([], kill, OnLastDay(1, Dishonorable, 7));
  }

  // ---------- every row is scored in its own week ----------

  /** Between two states of a run rows are only added, dated from the first one's day on. */
  ghost predicate Grew(a: Ledger, b: Ledger) {
    && a.today <= b.today && |a.recorded| <= |b.recorded| && b.recorded[..|a.recorded|] == a.recorded
    && forall k :: |a.recorded| <= k < |b.recorded| ==> b.recorded[k].date >= a.today
  }

  lemma StepGrows(a: Ledger, b: Ledger, c: Ledger)
    requires Grew(a, b) && Step(b, c)
    ensures Grew(a, c)
  {
    if r :| RecordStep(b, r, c) {
      assert c.recorded[..|a.recorded|] == b.recorded[..|a.recorded|];
    }
  }

  lemma {:induction false} NothingMore(rows: seq<CpRow>, longer: seq<CpRow>, p: CpRow -> bool)
    requires |rows| <= |longer| && longer[..|rows|] == rows
    requires forall k :: |rows| <= k < |longer| ==> !p(longer[k])
    ensures Count(longer, p) == Count(rows, p) && Total(longer, p) == Total(rows, p)
  {
    if |rows| == |longer| {
      assert longer == rows;
    } else {
      var before := longer[..|longer| - 1];
      assert before[..|rows|] == rows;
      NothingMore(rows, before, p);
    }
  }

  /** The scores of a due maintenance are the tally of all rows of its week that are ever recorded: none was
      deleted before, and none comes after. */
  lemma HarvestIsFinal(run: seq<Ledger>, i: nat, j: nat, guid: nat)
    requires IsRun(run, (a, b) => Step(a, b)) && i <= j < |run| && IsStart(run[0]) && run[i].marker
    requires guid in Query(run[i].db, run[i].rows, WeekOf(run[i]))
    ensures Query(run[i].db, run[i].rows, WeekOf(run[i]))[guid] == Tally(run[j].recorded, WeekOf(run[i]), guid)
  {
    RunKeepsBooks(run, i);
    forall a, b, c | Grew(a, b) && Step(b, c)
      ensures Grew(a, c)
    {
      StepGrows(a, b, c);
    }
    Along(run, (a, b) => Step(a, b), (a, b) => Grew(a, b), i, j);
    var s, week := run[i], WeekOf(run[i]);
    QueryIsTally(s.db, s.rows, week, guid);
    forall kind: Kind
      ensures Count(s.rows, Of(week, guid, kind)) == Count(run[j].recorded, Of(week, guid, kind))
      ensures Total(s.rows, Of(week, guid, kind)) == Total(run[j].recorded, Of(week, guid, kind))
    {
      TableCounts(s, Of(week, guid, kind));
      NothingMore(s.recorded, run[j].recorded, Of(week, guid, kind));
    }
  }
}
