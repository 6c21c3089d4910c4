/** Whole dumps: what LoadRows, the sum of all lines, does to references between rows and tables. */
module DumpRuns {
  import opened Basics
  import opened DumpIds
  import opened DumpLoad
  import opened DumpReading
  import opened DumpText

  // ---------- every row as its table prescribes ----------

  /** A row is loaded as its table prescribes, given the final id maps. */
  ghost predicate RowDone(env: Env, row: Option<DumpRow>, now: Option<DumpRow>, st: State) {
    match row
    case None => now == None
    case Some(d) =>
      now.Some? && TypeFrom(d.tn, 0).Some? && CellsDone(env, TypeFrom(d.tn, 0).value, d, now.value, st)
  }

  ghost predicate RowsDone(env: Env, rows: seq<Option<DumpRow>>, nows: seq<Option<DumpRow>>, n: nat, st: State) {
    |nows| == n <= |rows| && forall k :: 0 <= k < n ==> RowDone(env, rows[k], nows[k], st)
  }

  function CellCount(rows: seq<Option<DumpRow>>, n: nat): nat
    requires n <= |rows|
  {
    if n == 0 then 0 else CellCount(rows, n - 1) + RowCells(rows[n - 1])
  }

  function RowCells(row: Option<DumpRow>): nat {
    if row.Some? then |row.value.values| else 0
  }

  lemma RowStaysDone(env: Env, row: Option<DumpRow>, now: Option<DumpRow>, a: State, b: State)
    requires RowDone(env, row, now, a) && Grows(a, b)
    ensures RowDone(env, row, now, b)
  {
    if row.Some? {
      CellsStayDone(env, TypeFrom(row.value.tn, 0).value, row.value, now.value, a, b);
    }
  }

  lemma RowsStayDone(env: Env, rows: seq<Option<DumpRow>>, nows: seq<Option<DumpRow>>, n: nat, a: State, b: State)
    requires RowsDone(env, rows, nows, n, a) && Grows(a, b)
    ensures RowsDone(env, rows, nows, n, b)
  {
    forall k | 0 <= k < n
      ensures RowDone(env, rows[k], nows[k], b)
    {
      RowStaysDone(env, rows[k], nows[k], a, b);
    }
  }

  lemma CompleteKnowsPets(env: Env, t: TableType, st: State, d: DumpRow)
    requires Complete(env, t, st, d)
    ensures PetsKnown(t, st, d)
  {
  }

  lemma OneDone(env: Env, next: Kind -> nat, row: Option<DumpRow>, a: State)
    requires LoadOne(env, next, row, a).Some?
    ensures var (b, now) := LoadOne(env, next, row, a).value;
            AllKept(a, b, next, RowCells(row)) && RowDone(env, row, now, b)
  {
    match row
    case None => NothingKept(a, next);
    case Some(d) =>
      var t := TypeFrom(d.tn, 0).value;
      CompleteKnowsPets(env, t, a, d);
      RowStepDone(env, t, next, a, d);
  }

  lemma OneMoreRow(env: Env, next: Kind -> nat, rows: seq<Option<DumpRow>>, n: nat, a: State,
                   st: State, nows: seq<Option<DumpRow>>)
    requires n < |rows| && AllKept(a, st, next, CellCount(rows, n)) && RowsDone(env, rows, nows, n, st)
    requires LoadOne(env, next, rows[n], st).Some?
    ensures var (b, now) := LoadOne(env, next, rows[n], st).value;
            AllKept(a, b, next, CellCount(rows, n + 1)) && RowsDone(env, rows, nows + [now], n + 1, b)
  {
    var (b, now) := LoadOne(env, next, rows[n], st).value;
    OneDone(env, next, rows[n], st);
    AllKeptAgain(a, st, b, next, CellCount(rows, n), RowCells(rows[n]), CellCount(rows, n + 1));
    KeptGrows(st, b, next, RowCells(rows[n]));
    RowsDoneNext(env, rows, nows, n, st, b, now);
  }

  lemma RowsDoneNext(env: Env, rows: seq<Option<DumpRow>>, nows: seq<Option<DumpRow>>, n: nat, a: State, b: State,
                     now: Option<DumpRow>)
    requires n < |rows| && RowsDone(env, rows, nows, n, a) && Grows(a, b) && RowDone(env, rows[n], now, b)
    ensures RowsDone(env, rows, nows + [now], n + 1, b)
  {
    RowsStayDone(env, rows, nows, n, a, b);
  }

  /** Loading a dump leaves every row as its table prescribes, by the final id maps, and gives at most
      one id for each value. */
  lemma {:induction false} AllRowsDone(env: Env, next: Kind -> nat, rows: seq<Option<DumpRow>>, n: nat, a: State)
    requires n <= |rows| && LoadRows(env, next, rows, n, a).Some?
    ensures var (st, nows) := LoadRows(env, next, rows, n, a).value;
            AllKept(a, st, next, CellCount(rows, n)) && RowsDone(env, rows, nows, n, st)
  {
    if n == 0 {
      NothingKept(a, next);
    } else {
      AllRowsDone(env, next, rows, n - 1, a);
      var (st, nows) := LoadRows(env, next, rows, n - 1, a).value;
      OneMoreRow(env, next, rows, n - 1, a, st, nows);
    }
  }

  // ---------- references ----------

  ghost predicate FreshState(a: State) {
    a.items == map[] && a.mails == map[] && a.texts == map[] && a.petIds == map[]
  }

  /** Short of overflow the old ids of each kind are mapped one to one onto the range that starts at the
      next free id; the generator is then set to the end of that range. */
  lemma NewIdsFillTheRange(env: Env, next: Kind -> nat, rows: seq<Option<DumpRow>>, a: State, kind: Kind)
    requires FreshState(a) && LoadRows(env, next, rows, |rows|, a).Some?
    requires next(kind) + CellCount(rows, |rows|) <= UINT32
    ensures Bijection(IdsOf(LoadRows(env, next, rows, |rows|, a).value.0, kind), next(kind))
  {
    AllRowsDone(env, next, rows, |rows|, a);
    assert |IdsOf(a, kind)| == 0;
  }

  /** Column c of row k refers to an id of that kind. */
  predicate RefersAt(rows: seq<Option<DumpRow>>, k: nat, c: nat, kind: Kind, keepsZero: bool) {
    && k < |rows| && rows[k].Some? && 0 < c <= |rows[k].value.values|
    && TypeFrom(rows[k].value.tn, 0).Some?
    && RoleOf(TypeFrom(rows[k].value.tn, 0).value, c) == Ref(kind, keepsZero)
  }

  lemma RefCellDone(env: Env, rows: seq<Option<DumpRow>>, nows: seq<Option<DumpRow>>, st: State,
                    k: nat, c: nat, kind: Kind, keepsZero: bool)
    requires RowsDone(env, rows, nows, |rows|, st) && RefersAt(rows, k, c, kind, keepsZero)
    ensures nows[k].Some? && c <= |nows[k].value.values|
    ensures CellDone(env, Ref(kind, keepsZero), rows[k].value.values[c - 1], nows[k].value.values[c - 1], st)
  {
    assert RowDone(env, rows[k], nows[k], st);
    assert CellDone(env, RoleOf(TypeFrom(rows[k].value.tn, 0).value, c - 1 + 1),
                    rows[k].value.values[c - 1], nows[k].value.values[c - 1], st);
  }

  /** Wherever they stand in the dump, two references agree after loading exactly when they agreed before,
      unless both were 0 and only one of the columns keeps its zero. */
  lemma DumpKeepsReferences(env: Env, next: Kind -> nat, rows: seq<Option<DumpRow>>, a: State, kind: Kind,
                            i: nat, c: nat, keepsI: bool, j: nat, e: nat, keepsJ: bool)
    requires FreshState(a) && LoadRows(env, next, rows, |rows|, a).Some?
    requires 0 < next(kind) && next(kind) + CellCount(rows, |rows|) <= UINT32
    requires RefersAt(rows, i, c, kind, keepsI) && RefersAt(rows, j, e, kind, keepsJ)
    ensures var nows := LoadRows(env, next, rows, |rows|, a).value.1;
            var before := (ReadId(rows[i].value.values[c - 1]), ReadId(rows[j].value.values[e - 1]));
            && |nows| == |rows| && nows[i].Some? && nows[j].Some?
            && c <= |nows[i].value.values| && e <= |nows[j].value.values|
            && ((ReadId(nows[i].value.values[c - 1]) == ReadId(nows[j].value.values[e - 1]) <==> before.0 == before.1)
                <==> !(before.0 == 0 && before.1 == 0 && keepsI != keepsJ))
  {
    var (st, nows) := LoadRows(env, next, rows, |rows|, a).value;
    AllRowsDone(env, next, rows, |rows|, a);
    NewIdsFillTheRange(env, next, rows, a, kind);
    RefCellDone(env, rows, nows, st, i, c, kind, keepsI);
    RefCellDone(env, rows, nows, st, j, e, kind, keepsJ);
    ReferencesPreserved(env, kind, next(kind), st,
                        keepsI, rows[i].value.values[c - 1], nows[i].value.values[c - 1],
                        keepsJ, rows[j].value.values[e - 1], nows[j].value.values[e - 1]);
  }

  /** The exception is real: a mail without a text and an item without one both refer to text 0; loaded,
      the item still does, and the mail refers to some new text. */
  lemma MailAndItemTextsPart(env: Env, next: Kind -> nat, rows: seq<Option<DumpRow>>, a: State, i: nat, j: nat)
    requires FreshState(a) && LoadRows(env, next, rows, |rows|, a).Some?
    requires 0 < next(Texts) && next(Texts) + CellCount(rows, |rows|) <= UINT32
    requires RefersAt(rows, i, 8, Texts, false) && ReadId(rows[i].value.values[7]) == 0
    requires RefersAt(rows, j, 13, Texts, true) && ReadId(rows[j].value.values[12]) == 0
    ensures var nows := LoadRows(env, next, rows, |rows|, a).value.1;
            && |nows| == |rows| && nows[i].Some? && nows[j].Some?
            && |nows[i].value.values| >= 8 && |nows[j].value.values| >= 13
            && ReadId(nows[i].value.values[7]) != ReadId(nows[j].value.values[12])
  {
    DumpKeepsReferences(env, next, rows, a, Texts, i, 8, false, j, 13, true);
  }

  // ---------- pets ----------

  predicate IsPetRow(row: Option<DumpRow>) {
    row.Some? && row.value.values != [] && TypeFrom(row.value.tn, 0) == Some(Pet)
  }

  function PetOf(row: Option<DumpRow>): Id
    requires IsPetRow(row)
  {
    ReadId(Clip(row.value.values[0]))
  }

  /** id is the primary key of character_pet. */
  predicate DistinctPets(rows: seq<Option<DumpRow>>, n: nat) {
    && n <= |rows|
    && (forall k :: 0 <= k < n && IsPetRow(rows[k]) ==> rows[k].value.values[0] != "")
    && (forall i, j :: 0 <= i < j < n && IsPetRow(rows[i]) && IsPetRow(rows[j]) ==> PetOf(rows[i]) != PetOf(rows[j]))
  }

  predicate SamePets(a: State, b: State) {
    a.petIds == b.petIds && a.lastPet == b.lastPet && a.petsDrawn == b.petsDrawn
  }

  /** What a row does to the pets, with n cells loaded. */
  ghost predicate PetPart(env: Env, t: TableType, st: State, d: DumpRow, s: State, w: DumpRow, n: nat) {
    && |w.values| == |d.values|
    && (n == 0 ==> s == st)
    && (t == Pet && n > 0 && d.values != [] ==> AsPetStep(PetStep(env, st, d.values[0]), s, w))
    && (t != Pet ==> SamePets(s, st))
    && (t != Pet && t != PetTable ==> s.newPet == st.newPet)
    && (t == PetTable && n > 0 && d.values != [] && ReadId(Clip(d.values[0])) in st.petIds ==>
          s.newPet == PrintId(st.petIds[ReadId(Clip(d.values[0]))]))
  }

  predicate AsPetStep(p: State, s: State, w: DumpRow) {
    SamePets(s, p) && s.newPet == p.newPet && w.values != [] && w.values[0] == p.newPet
  }

  ghost function PetPartRelation(env: Env, t: TableType, st: State, d: DumpRow): (State, DumpRow, nat) -> bool {
    (s: State, w: DumpRow, n: nat) => PetPart(env, t, st, d, s, w, n)
  }

  lemma PetCell(env: Env, next: Kind -> nat, st: State, d: DumpRow, s: State, w: DumpRow, n: nat)
    requires n < |d.values| && PetPart(env, Pet, st, d, s, w, n)
    ensures var (after, text) := CellStep(env, RoleOf(Pet, n + 1), next, st.name, d, s, d.values[n]);
            PetPart(env, Pet, st, d, after, With(w, n + 1, text), n + 1)
  {
  }

  lemma PetTableCell(env: Env, next: Kind -> nat, st: State, d: DumpRow, s: State, w: DumpRow, n: nat)
    requires n < |d.values| && PetPart(env, PetTable, st, d, s, w, n)
    ensures var (after, text) := CellStep(env, RoleOf(PetTable, n + 1), next, st.name, d, s, d.values[n]);
            PetPart(env, PetTable, st, d, after, With(w, n + 1, text), n + 1)
  {
  }

  lemma NoPetCell(env: Env, role: Role, next: Kind -> nat, entryName: string, d: DumpRow, s: State, text: string)
    requires role != PetId && role != PetRef
    ensures var after := CellStep(env, role, next, entryName, d, s, text).0;
            SamePets(after, s) && after.newPet == s.newPet
  {
  }

  lemma OtherCell(env: Env, t: TableType, next: Kind -> nat, st: State, d: DumpRow, s: State, w: DumpRow, n: nat)
    requires t != Pet && t != PetTable && n < |d.values| && PetPart(env, t, st, d, s, w, n)
    ensures var (after, text) := CellStep(env, RoleOf(t, n + 1), next, st.name, d, s, d.values[n]);
            PetPart(env, t, st, d, after, With(w, n + 1, text), n + 1)
  {
    var role := RoleOf(t, n + 1);
    assert role != PetId && role != PetRef;
    NoPetCell(env, role, next, st.name, d, s, d.values[n]);
  }

  lemma PetPartOfRow(env: Env, t: TableType, next: Kind -> nat, st: State, d: DumpRow)
    ensures var (after, now) := RowStep(env, t, next, st, d); PetPart(env, t, st, d, after, now, |d.values|)
  {
    var inv := PetPartRelation(env, t, st, d);
    assert inv(st, d, 0);
    forall s, w, n: nat | inv(s, w, n) && n < |d.values|
      ensures InvAfter(env, t, next, st, d, s, w, n, inv)
    {
      if t == Pet {
        PetCell(env, next, st, d, s, w, n);
      } else if t == PetTable {
        PetTableCell(env, next, st, d, s, w, n);
      } else {
        OtherCell(env, t, next, st, d, s, w, n);
      }
    }
    StepsKeep(env, t, next, st, d, |d.values|, inv);
  }

  predicate IsPetTableRow(row: Option<DumpRow>) {
    row.Some? && row.value.values != [] && TypeFrom(row.value.tn, 0) == Some(PetTable)
  }

  /** The pet a row of a pet table refers to. */
  function PetReferred(row: Option<DumpRow>): Id
    requires IsPetTableRow(row)
  {
    ReadId(Clip(row.value.values[0]))
  }

  ghost predicate MetBefore(rows: seq<Option<DumpRow>>, n: nat, id: Id) {
    exists k :: 0 <= k < n && k < |rows| && IsPetRow(rows[k]) && PetOf(rows[k]) == id
  }

  /** The id text of the last pet row among the first n rows. */
  function LastPet(rows: seq<Option<DumpRow>>, n: nat): string
    requires n <= |rows|
  {
    if n == 0 then ""
    else if IsPetRow(rows[n - 1]) then Clip(rows[n - 1].value.values[0])
    else LastPet(rows, n - 1)
  }

  /** The pet that the last row of character_pet or of a pet table among the first n rows is about. */
  function LastNamed(rows: seq<Option<DumpRow>>, n: nat): Option<Id>
    requires n <= |rows|
  {
    if n == 0 then None
    else if IsPetRow(rows[n - 1]) then Some(PetOf(rows[n - 1]))
    else if IsPetTableRow(rows[n - 1]) then Some(PetReferred(rows[n - 1]))
    else LastNamed(rows, n - 1)
  }

  /** If row k repeats a pet, then the pet row before it shows the same text, and no row in between, of any
      pet table, left another pet as the last one named. */
  ghost predicate InPlace(rows: seq<Option<DumpRow>>, k: nat)
    requires k < |rows|
  {
    IsPetRow(rows[k]) && MetBefore(rows, k, PetOf(rows[k])) ==>
      LastPet(rows, k) == Clip(rows[k].value.values[0]) && LastNamed(rows, k) == Some(PetOf(rows[k]))
  }

  ghost predicate AllInPlace(rows: seq<Option<DumpRow>>, n: nat) {
    n <= |rows| && forall k :: 0 <= k < n ==> InPlace(rows, k)
  }

  predicate NamedPets(rows: seq<Option<DumpRow>>, n: nat) {
    n <= |rows| && forall k :: 0 <= k < n && IsPetRow(rows[k]) ==> rows[k].value.values[0] != ""
  }

  /** What holds of the pets in any case: exactly the pets met are noted, under different numbers. */
  ghost predicate PetsGood(env: Env, rows: seq<Option<DumpRow>>, n: nat, st: State) {
    && n <= |rows| && PetsDistinct(env, st) && PetsInStep(env, st) && st.lastPet == LastPet(rows, n)
    && forall id: Id :: id in st.petIds <==> MetBefore(rows, n, id)
  }

  /** The number written last is the one that the pet named last is noted under. */
  ghost predicate NumberWaits(rows: seq<Option<DumpRow>>, n: nat, st: State) {
    n <= |rows| &&
    (LastNamed(rows, n).Some? ==>
       LastNamed(rows, n).value in st.petIds && ReadId(st.newPet) == st.petIds[LastNamed(rows, n).value])
  }

  /** The row of a pet shows the number the pet is noted under. */
  ghost predicate PetRowShows(row: Option<DumpRow>, now: Option<DumpRow>, st: State) {
    IsPetRow(row) ==>
      now.Some? && now.value.values != [] && PetOf(row) in st.petIds
      && ReadId(now.value.values[0]) == st.petIds[PetOf(row)]
  }

  lemma {:induction false} MetIsNamed(rows: seq<Option<DumpRow>>, n: nat, id: Id)
    requires n <= |rows| && MetBefore(rows, n, id)
    ensures LastNamed(rows, n).Some?
  {
    if !IsPetRow(rows[n - 1]) {
      assert MetBefore(rows, n - 1, id);
      MetIsNamed(rows, n - 1, id);
    }
  }

  lemma MetNext(rows: seq<Option<DumpRow>>, n: nat, id: Id)
    requires n < |rows|
    ensures MetBefore(rows, n + 1, id) <==> MetBefore(rows, n, id) || (IsPetRow(rows[n]) && PetOf(rows[n]) == id)
  {
    if MetBefore(rows, n, id) {
      var k :| 0 <= k < n && k < |rows| && IsPetRow(rows[k]) && PetOf(rows[k]) == id;
      assert k < n + 1;
    }
  }

  /** What a row that is no pet's own does: pet tables' rows write the number of the pet they name. */
  ghost predicate OtherRow(row: Option<DumpRow>, a: State, b: State) {
    && !IsPetRow(row) && SamePets(a, b)
    && if IsPetTableRow(row) then PetReferred(row) in a.petIds && ReadId(b.newPet) == a.petIds[PetReferred(row)]
       else b.newPet == a.newPet
  }

  lemma OtherRowPets(env: Env, next: Kind -> nat, row: Option<DumpRow>, a: State)
    requires LoadOne(env, next, row, a).Some? && !IsPetRow(row)
    ensures OtherRow(row, a, LoadOne(env, next, row, a).value.0)
  {
    if row.Some? {
      var d := row.value;
      PetPartOfRow(env, TypeFrom(d.tn, 0).value, next, a, d);
      if IsPetTableRow(row) {
        PrintedIdReads(a.petIds[PetReferred(row)]);
      }
    }
  }

  /** It notes no pet. */
  lemma OtherRowKeepsPets(env: Env, rows: seq<Option<DumpRow>>, n: nat, a: State, b: State)
    requires n < |rows| && OtherRow(rows[n], a, b) && PetsGood(env, rows, n, a)
    ensures PetsGood(env, rows, n + 1, b) && (NumberWaits(rows, n, a) ==> NumberWaits(rows, n + 1, b))
  {
    assert a.lastPet == "" ==> !IsPetTableRow(rows[n]);
    forall id: Id
      ensures MetBefore(rows, n + 1, id) <==> MetBefore(rows, n, id)
    {
      MetNext(rows, n, id);
    }
  }

  /** What a pet's own row does: the first notes the pet, a repeated one shows the number written last or a new
      one. */
  ghost predicate OwnRow(env: Env, row: Option<DumpRow>, a: State, b: State, now: Option<DumpRow>) {
    && IsPetRow(row) && now.Some? && now.value.values != [] && now.value.values[0] == b.newPet
    && PetsDistinct(env, b) && PetsInStep(env, b) && b.lastPet == Clip(row.value.values[0])
    && b.petIds.Keys == a.petIds.Keys + {PetOf(row)} && Extends(a.petIds, b.petIds)
    && if PetOf(row) !in a.petIds then ReadId(b.newPet) == b.petIds[PetOf(row)]
       else if a.lastPet == Clip(row.value.values[0]) then b.newPet == a.newPet
       else ReadId(b.newPet) != b.petIds[PetOf(row)]
  }

  lemma OwnRowPets(env: Env, next: Kind -> nat, row: Option<DumpRow>, a: State)
    requires LoadOne(env, next, row, a).Some? && IsPetRow(row) && row.value.values[0] != ""
    requires PetsDistinct(env, a) && PetsInStep(env, a)
    requires NumbersDistinct(env, LoadOne(env, next, row, a).value.0.petsDrawn)
    ensures var (b, now) := LoadOne(env, next, row, a).value; OwnRow(env, row, a, b, now)
  {
    var (b, now) := LoadOne(env, next, row, a).value;
    var id := row.value.values[0];
    PetPartOfRow(env, Pet, next, a, row.value);
    OwnStep(env, a, id);
    AsOwnRow(env, row, a, PetStep(env, a, id), b, now);
  }

  lemma OwnStep(env: Env, a: State, id: string)
    requires id != "" && PetsDistinct(env, a) && PetsInStep(env, a)
    requires NumbersDistinct(env, PetStep(env, a, id).petsDrawn)
    ensures var b := PetStep(env, a, id);
            var pet := ReadId(Clip(id));
            && PetsDistinct(env, b) && PetsInStep(env, b) && b.lastPet == Clip(id)
            && b.petIds.Keys == a.petIds.Keys + {pet} && Extends(a.petIds, b.petIds)
            && if pet !in a.petIds then ReadId(b.newPet) == b.petIds[pet]
               else if a.lastPet == Clip(id) then b.newPet == a.newPet
               else ReadId(b.newPet) != b.petIds[pet]
  {
    if ReadId(Clip(id)) in a.petIds {
      PetMetAgain(env, a, id);
    } else {
      NewPetIsNoted(env, a, id);
    }
  }

  lemma AsOwnRow(env: Env, row: Option<DumpRow>, a: State, p: State, b: State, now: Option<DumpRow>)
    requires IsPetRow(row) && now.Some? && AsPetStep(p, b, now.value)
    requires PetsDistinct(env, p) && PetsInStep(env, p) && p.lastPet == Clip(row.value.values[0])
    requires p.petIds.Keys == a.petIds.Keys + {PetOf(row)} && Extends(a.petIds, p.petIds)
    requires if PetOf(row) !in a.petIds then ReadId(p.newPet) == p.petIds[PetOf(row)]
             else if a.lastPet == Clip(row.value.values[0]) then p.newPet == a.newPet
             else ReadId(p.newPet) != p.petIds[PetOf(row)]
    ensures OwnRow(env, row, a, b, now)
  {
  }

  lemma PetRowNotes(env: Env, rows: seq<Option<DumpRow>>, n: nat, a: State, b: State, now: Option<DumpRow>)
    requires n < |rows| && OwnRow(env, rows[n], a, b, now) && PetsGood(env, rows, n, a)
    ensures PetsGood(env, rows, n + 1, b)
  {
    forall id: Id
      ensures MetBefore(rows, n + 1, id) <==> MetBefore(rows, n, id) || PetOf(rows[n]) == id
    {
      MetNext(rows, n, id);
    }
  }

  /** A repeated row shows its number exactly if it is in place. */
  lemma PetRowKeepsPets(env: Env, rows: seq<Option<DumpRow>>, n: nat, a: State, b: State, now: Option<DumpRow>)
    requires n < |rows| && OwnRow(env, rows[n], a, b, now) && PetsGood(env, rows, n, a)
    ensures PetsGood(env, rows, n + 1, b)
    ensures NumberWaits(rows, n, a) ==> (PetRowShows(rows[n], now, b) <==> InPlace(rows, n))
    ensures PetRowShows(rows[n], now, b) ==> NumberWaits(rows, n + 1, b)
  {
    PetRowNotes(env, rows, n, a, b, now);
    var pet := PetOf(rows[n]);
    assert MetBefore(rows, n, pet) <==> pet in a.petIds;
    if pet in a.petIds {
      MetIsNamed(rows, n, pet);
    }
  }

  ghost predicate PetRowsShow(rows: seq<Option<DumpRow>>, nows: seq<Option<DumpRow>>, n: nat, st: State) {
    |nows| == n <= |rows| && forall k :: 0 <= k < n ==> PetRowShows(rows[k], nows[k], st)
  }

  lemma PetIdsStay(env: Env, next: Kind -> nat, row: Option<DumpRow>, a: State)
    requires LoadOne(env, next, row, a).Some?
    ensures Extends(a.petIds, LoadOne(env, next, row, a).value.0.petIds)
  {
    OneDone(env, next, row, a);
  }

  /** What was shown before stays shown, and what was not stays so. */
  lemma PetRowKeeps(env: Env, rows: seq<Option<DumpRow>>, n: nat, a: State, b: State, k: nat, now: Option<DumpRow>)
    requires k < n <= |rows| && PetsGood(env, rows, n, a) && Extends(a.petIds, b.petIds)
    ensures PetRowShows(rows[k], now, a) <==> PetRowShows(rows[k], now, b)
  {
    if IsPetRow(rows[k]) {
      assert MetBefore(rows, n, PetOf(rows[k]));
    }
  }

  lemma PetRowsShowLonger(rows: seq<Option<DumpRow>>, nows: seq<Option<DumpRow>>, b: State, now: Option<DumpRow>)
    requires |nows| < |rows|
    ensures PetRowsShow(rows, nows + [now], |nows| + 1, b) <==>
              PetRowsShow(rows, nows, |nows|, b) && PetRowShows(rows[|nows|], now, b)
  {
    var n, longer := |nows|, nows + [now];
    assert longer[n] == now;
    assert forall k :: 0 <= k < n ==> longer[k] == nows[k];
  }

  lemma PetRowsShowNext(env: Env, rows: seq<Option<DumpRow>>, nows: seq<Option<DumpRow>>, n: nat, a: State,
                        b: State, now: Option<DumpRow>)
    requires n < |rows| && |nows| == n && PetsGood(env, rows, n, a) && Extends(a.petIds, b.petIds)
    ensures PetRowsShow(rows, nows + [now], n + 1, b) <==> PetRowsShow(rows, nows, n, a) && PetRowShows(rows[n], now, b)
  {
    PetRowsShowLonger(rows, nows, b, now);
    forall k | 0 <= k < n
      ensures PetRowShows(rows[k], nows[k], a) <==> PetRowShows(rows[k], nows[k], b)
    {
      PetRowKeeps(env, rows, n, a, b, k, nows[k]);
    }
  }

  /** A row draws at most one number. */
  lemma RowDraws(env: Env, next: Kind -> nat, row: Option<DumpRow>, a: State)
    requires LoadOne(env, next, row, a).Some?
    ensures a.petsDrawn <= LoadOne(env, next, row, a).value.0.petsDrawn <= a.petsDrawn + 1
  {
    if row.Some? {
      PetPartOfRow(env, TypeFrom(row.value.tn, 0).value, next, a, row.value);
    }
  }

  lemma {:induction false} RowsDraw(env: Env, next: Kind -> nat, rows: seq<Option<DumpRow>>, n: nat, a: State)
    requires n <= |rows| && LoadRows(env, next, rows, n, a).Some?
    ensures LoadRows(env, next, rows, n, a).value.0.petsDrawn <= a.petsDrawn + n
  {
    if n > 0 {
      RowsDraw(env, next, rows, n - 1, a);
      RowDraws(env, next, rows[n - 1], LoadRows(env, next, rows, n - 1, a).value.0);
    }
  }

  /** One row, whatever table it is of. */
  lemma OneRowOfPets(env: Env, next: Kind -> nat, rows: seq<Option<DumpRow>>, n: nat, st: State)
    requires n < |rows| && LoadOne(env, next, rows[n], st).Some? && NamedPets(rows, n + 1)
    requires NumbersDistinct(env, LoadOne(env, next, rows[n], st).value.0.petsDrawn) && PetsGood(env, rows, n, st)
    ensures var (b, now) := LoadOne(env, next, rows[n], st).value;
            && PetsGood(env, rows, n + 1, b) && Extends(st.petIds, b.petIds)
            && (NumberWaits(rows, n, st) ==> (PetRowShows(rows[n], now, b) <==> InPlace(rows, n)))
            && (NumberWaits(rows, n, st) && PetRowShows(rows[n], now, b) ==> NumberWaits(rows, n + 1, b))
  {
    var (b, now) := LoadOne(env, next, rows[n], st).value;
    PetIdsStay(env, next, rows[n], st);
    if IsPetRow(rows[n]) {
      OwnRowPets(env, next, rows[n], st);
      PetRowKeepsPets(env, rows, n, st, b, now);
    } else {
      OtherRowPets(env, next, rows[n], st);
      OtherRowKeepsPets(env, rows, n, st, b);
    }
  }

  lemma PlaceNext(rows: seq<Option<DumpRow>>, n: nat)
    requires n < |rows|
    ensures AllInPlace(rows, n + 1) <==> AllInPlace(rows, n) && InPlace(rows, n)
  {
  }

  /** All that is known of the pets after n rows. */
  ghost predicate PetsTold(env: Env, rows: seq<Option<DumpRow>>, nows: seq<Option<DumpRow>>, n: nat, st: State) {
    && |nows| == n <= |rows| && PetsGood(env, rows, n, st)
    && (PetRowsShow(rows, nows, n, st) <==> AllInPlace(rows, n))
    && (PetRowsShow(rows, nows, n, st) ==> NumberWaits(rows, n, st))
  }

  lemma ToldNext(env: Env, rows: seq<Option<DumpRow>>, nows: seq<Option<DumpRow>>, n: nat, a: State, b: State,
                 now: Option<DumpRow>)
    requires n < |rows| && PetsTold(env, rows, nows, n, a) && PetsGood(env, rows, n + 1, b)
    requires PetRowsShow(rows, nows + [now], n + 1, b) <==>
               PetRowsShow(rows, nows, n, a) && PetRowShows(rows[n], now, b)
    requires AllInPlace(rows, n + 1) <==> AllInPlace(rows, n) && InPlace(rows, n)
    requires NumberWaits(rows, n, a) ==> (PetRowShows(rows[n], now, b) <==> InPlace(rows, n))
    requires NumberWaits(rows, n, a) && PetRowShows(rows[n], now, b) ==> NumberWaits(rows, n + 1, b)
    ensures PetsTold(env, rows, nows + [now], n + 1, b)
  {
    var show, place, waits := PetRowsShow(rows, nows, n, a), AllInPlace(rows, n), NumberWaits(rows, n, a);
    var shows, spot, waits' := PetRowShows(rows[n], now, b), InPlace(rows, n), NumberWaits(rows, n + 1, b);
    assert (show <==> place) && (show ==> waits);
    assert (show && shows <==> place && spot) && (show && shows ==> waits');
  }

  lemma PetsAdvance(env: Env, next: Kind -> nat, rows: seq<Option<DumpRow>>, n: nat, st: State,
                    nows: seq<Option<DumpRow>>)
    requires n < |rows| && LoadOne(env, next, rows[n], st).Some? && NamedPets(rows, n + 1)
    requires NumbersDistinct(env, LoadOne(env, next, rows[n], st).value.0.petsDrawn) && PetsTold(env, rows, nows, n, st)
    ensures var (b, now) := LoadOne(env, next, rows[n], st).value; PetsTold(env, rows, nows + [now], n + 1, b)
  {
    var (b, now) := LoadOne(env, next, rows[n], st).value;
    OneRowOfPets(env, next, rows, n, st);
    PetRowsShowNext(env, rows, nows, n, st, b, now);
    PlaceNext(rows, n);
    ToldNext(env, rows, nows, n, st, b, now);
  }

  lemma FewerNamedPets(rows: seq<Option<DumpRow>>, n: nat)
    requires n > 0 && NamedPets(rows, n)
    ensures NamedPets(rows, n - 1)
  {
  }

  lemma FewerNumbersDiffer(env: Env, m: nat, n: nat)
    requires m <= n && NumbersDistinct(env, n)
    ensures NumbersDistinct(env, m)
  {
  }

  /** However a dump repeats its pets: all pet rows show the numbers that the pets are noted under, and that rows
      of pet tables refer to, exactly if every row that repeats a pet is in place. */
  lemma {:induction false} PetsKeepTheirNumbers(env: Env, next: Kind -> nat, rows: seq<Option<DumpRow>>, n: nat,
                                                a: State)
    requires n <= |rows| && LoadRows(env, next, rows, n, a).Some?
    requires NumbersDistinct(env, LoadRows(env, next, rows, n, a).value.0.petsDrawn)
    requires NamedPets(rows, n) && PetsGood(env, rows, 0, a)
    ensures var (st, nows) := LoadRows(env, next, rows, n, a).value; PetsTold(env, rows, nows, n, st)
  {
    if n > 0 {
      var (st, nows) := LoadRows(env, next, rows, n - 1, a).value;
      RowDraws(env, next, rows[n - 1], st);
      FewerNumbersDiffer(env, st.petsDrawn, LoadOne(env, next, rows[n - 1], st).value.0.petsDrawn);
      FewerNamedPets(rows, n);
      PetsKeepTheirNumbers(env, next, rows, n - 1, a);
      PetsAdvance(env, next, rows, n - 1, st, nows);
    }
  }

  /** The reader starts out with one number drawn and no pets. */
  ghost predicate NoPetsYet(env: Env, a: State) {
    a.petIds == map[] && a.lastPet == "" && a.newPet == PrintId(env.petNumber(0)) && a.petsDrawn == 1
  }

  lemma NoPetsIsGood(env: Env, rows: seq<Option<DumpRow>>, a: State)
    requires NoPetsYet(env, a)
    ensures PetsGood(env, rows, 0, a)
  {
  }

  lemma PetsToldSoFar(env: Env, next: Kind -> nat, rows: seq<Option<DumpRow>>, n: nat, a: State)
    requires n <= |rows| && LoadRows(env, next, rows, n, a).Some? && NoPetsYet(env, a)
    requires NumbersDistinct(env, n + 1) && NamedPets(rows, n)
    ensures var (st, nows) := LoadRows(env, next, rows, n, a).value; PetsTold(env, rows, nows, n, st)
  {
    NoPetsIsGood(env, rows, a);
    RowsDraw(env, next, rows, n, a);
    FewerNumbersDiffer(env, LoadRows(env, next, rows, n, a).value.0.petsDrawn, n + 1);
    PetsKeepTheirNumbers(env, next, rows, n, a);
  }

  /** A dump needs one number at the start and at most one more for each row; it is enough that these differ. */
  lemma DumpKeepsItsPets(env: Env, next: Kind -> nat, rows: seq<Option<DumpRow>>, a: State)
    requires LoadRows(env, next, rows, |rows|, a).Some? && NoPetsYet(env, a)
    requires NumbersDistinct(env, |rows| + 1) && NamedPets(rows, |rows|)
    ensures var (st, nows) := LoadRows(env, next, rows, |rows|, a).value;
            PetsGood(env, rows, |rows|, st) && (PetRowsShow(rows, nows, |rows|, st) <==> AllInPlace(rows, |rows|))
  {
    PetsToldSoFar(env, next, rows, |rows|, a);
  }

  /** Where id is a primary key, no row repeats a pet. */
  lemma DistinctPetsAreInPlace(rows: seq<Option<DumpRow>>, n: nat)
    requires DistinctPets(rows, n)
    ensures NamedPets(rows, n) && AllInPlace(rows, n)
  {
    forall k | 0 <= k < n && IsPetRow(rows[k])
      ensures !MetBefore(rows, k, PetOf(rows[k]))
    {
    }
  }

  lemma PetRefDone(env: Env, row: Option<DumpRow>, now: Option<DumpRow>, st: State)
    requires IsPetTableRow(row) && RowDone(env, row, now, st)
    ensures now.Some? && now.value.values != [] && PetReferred(row) in st.petIds
    ensures ReadId(now.value.values[0]) == st.petIds[PetReferred(row)]
  {
    assert CellDone(env, RoleOf(PetTable, 0 + 1), row.value.values[0], now.value.values[0], st);
    PrintedIdReads(st.petIds[PetReferred(row)]);
  }

  /** Where every repeated row is in place, a loaded row of a pet table refers to a loaded pet exactly if it did
      before. */
  lemma PetReferencesPreserved(env: Env, next: Kind -> nat, rows: seq<Option<DumpRow>>, a: State, i: nat, j: nat)
    requires LoadRows(env, next, rows, |rows|, a).Some? && NoPetsYet(env, a)
    requires NumbersDistinct(env, |rows| + 1) && NamedPets(rows, |rows|) && AllInPlace(rows, |rows|)
    requires i < |rows| && j < |rows| && IsPetRow(rows[i]) && IsPetTableRow(rows[j])
    ensures var nows := LoadRows(env, next, rows, |rows|, a).value.1;
            && |nows| == |rows| && nows[i].Some? && nows[j].Some?
            && nows[i].value.values != [] && nows[j].value.values != []
            && (ReadId(nows[i].value.values[0]) == ReadId(nows[j].value.values[0])
                <==> PetOf(rows[i]) == PetReferred(rows[j]))
  {
    var (st, nows) := LoadRows(env, next, rows, |rows|, a).value;
    AllRowsDone(env, next, rows, |rows|, a);
    DumpKeepsItsPets(env, next, rows, a);
    assert PetRowShows(rows[i], nows[i], st);
    PetRefDone(env, rows[j], nows[j], st);
  }

  // ---------- a pet that loses its number ----------

  lemma PetTableIsKnown()
    ensures TypeFrom("character_pet", 0) == Some(Pet)
  {
    var tn := "character_pet";
    assert TypeFrom(tn, 7) == Some(Pet);
    assert TypeFrom(tn, 5) == TypeFrom(tn, 6) == TypeFrom(tn, 7);
    assert TypeFrom(tn, 3) == TypeFrom(tn, 4) == TypeFrom(tn, 5);
    assert TypeFrom(tn, 1) == TypeFrom(tn, 2) == TypeFrom(tn, 3);
  }

  lemma DigitsRead()
    ensures ReadId("5") == 5 && ReadId("6") == 6
  {
    PrintedIdReads(5);
    PrintedIdReads(6);
    assert PrintId(5) == "5" && PrintId(6) == "6";
  }

  /** A row of character_pet with that id. */
  function PetRow(id: string): Option<DumpRow> { Some(DumpRow("character_pet", [id, "1", "1"], "")) }

  lemma PetRowsLoad(env: Env, next: Kind -> nat, rows: seq<Option<DumpRow>>, n: nat, a: State)
    requires n <= |rows| && forall k :: 0 <= k < n ==> rows[k].Some? && rows[k] == PetRow(Cell(rows[k].value, 1))
    ensures LoadRows(env, next, rows, n, a).Some?
  {
    PetTableIsKnown();
    if n > 0 {
      PetRowsLoad(env, next, rows, n - 1, a);
    }
  }

  lemma FirstOutOfPlace(env: Env, next: Kind -> nat, rows: seq<Option<DumpRow>>, n: nat, st: State,
                        nows: seq<Option<DumpRow>>)
    requires n < |rows| && LoadOne(env, next, rows[n], st).Some? && NamedPets(rows, n + 1)
    requires LoadOne(env, next, rows[n], st).value.0.petsDrawn <= n + 2 && NumbersDistinct(env, n + 2)
    requires PetsTold(env, rows, nows, n, st) && AllInPlace(rows, n) && !InPlace(rows, n)
    ensures var (b, now) := LoadOne(env, next, rows[n], st).value; !PetRowShows(rows[n], now, b)
  {
    FewerNumbersDiffer(env, LoadOne(env, next, rows[n], st).value.0.petsDrawn, n + 2);
    OneRowOfPets(env, next, rows, n, st);
  }

  lemma LastOfRows(env: Env, next: Kind -> nat, rows: seq<Option<DumpRow>>, n: nat, a: State)
    returns (st: State, nows: seq<Option<DumpRow>>, b: State, now: Option<DumpRow>)
    requires n < |rows| && LoadRows(env, next, rows, n + 1, a).Some?
    ensures LoadRows(env, next, rows, n, a) == Some((st, nows)) && LoadOne(env, next, rows[n], st) == Some((b, now))
    ensures |nows| == n && LoadRows(env, next, rows, n + 1, a) == Some((b, nows + [now]))
    ensures b.petsDrawn <= a.petsDrawn + n + 1
  {
    RowsDraw(env, next, rows, n + 1, a);
    AllRowsDone(env, next, rows, n, a);
    st, nows := LoadRows(env, next, rows, n, a).value.0, LoadRows(env, next, rows, n, a).value.1;
    b, now := LoadOne(env, next, rows[n], st).value.0, LoadOne(env, next, rows[n], st).value.1;
  }

  lemma ToldBefore(env: Env, next: Kind -> nat, rows: seq<Option<DumpRow>>, n: nat, a: State)
    requires n < |rows| && LoadRows(env, next, rows, n, a).Some? && NoPetsYet(env, a)
    requires NumbersDistinct(env, n + 2) && NamedPets(rows, n + 1)
    ensures var (st, nows) := LoadRows(env, next, rows, n, a).value; PetsTold(env, rows, nows, n, st)
  {
    FewerNumbersDiffer(env, n + 1, n + 2);
    FewerNamedPets(rows, n + 1);
    PetsToldSoFar(env, next, rows, n, a);
  }

  /** The first row out of place shows another number than its pet is noted under. */
  lemma OutOfPlaceShowsAnother(env: Env, next: Kind -> nat, rows: seq<Option<DumpRow>>, n: nat, a: State)
    requires n < |rows| && LoadRows(env, next, rows, n + 1, a).Some? && NoPetsYet(env, a)
    requires NumbersDistinct(env, n + 2) && NamedPets(rows, n + 1) && AllInPlace(rows, n) && !InPlace(rows, n)
    ensures var (st, nows) := LoadRows(env, next, rows, n + 1, a).value;
            |nows| == n + 1 && !PetRowShows(rows[n], nows[n], st)
  {
    var st, nows, b, now := LastOfRows(env, next, rows, n, a);
    ToldBefore(env, next, rows, n, a);
    FirstOutOfPlace(env, next, rows, n, st, nows);
  }

  /** Pet 5, pet 6, and pet 5 again. */
  function Repeating(): seq<Option<DumpRow>> { [PetRow("5"), PetRow("6"), PetRow("5")] }

  lemma ThirdOutOfPlace()
    ensures NamedPets(Repeating(), 3) && AllInPlace(Repeating(), 2) && !InPlace(Repeating(), 2)
  {
    var rows := Repeating();
    PetTableIsKnown();
    DigitsRead();
    assert PetOf(rows[0]) == 5 && PetOf(rows[1]) == 6 && PetOf(rows[2]) == 5;
    assert MetBefore(rows, 2, 5);
    assert !MetBefore(rows, 0, 5) && !MetBefore(rows, 1, 6);
    assert LastPet(rows, 2) == "6";
  }

  /** The third row of that dump shows another number than the one pet 5 is noted under. */
  lemma RepeatedPetShowsAnother(env: Env, next: Kind -> nat, a: State)
    requires NoPetsYet(env, a) && NumbersDistinct(env, 4)
    ensures LoadRows(env, next, Repeating(), 3, a).Some?
    ensures var (st, nows) := LoadRows(env, next, Repeating(), 3, a).value;
            |nows| == 3 && !PetRowShows(Repeating()[2], nows[2], st)
  {
    PetRowsLoad(env, next, Repeating(), 3, a);
    ThirdOutOfPlace();
    OutOfPlaceShowsAnother(env, next, Repeating(), 2, a);
  }
}
