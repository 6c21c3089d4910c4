/** Whose name the characters of a loaded dump bear, and which of them have to choose a new one. */
module DumpNames {
  import opened Basics
  import opened DumpIds
  import opened DumpLoad
  import opened DumpReading
  import opened DumpRuns
  import opened DumpText

  predicate IsCharacterRow(row: Option<DumpRow>) {
    row.Some? && TypeFrom(row.value.tn, 0) == Some(Character)
  }

  /** The name in a row; a row without that column has the empty one. */
  function NameOf(row: Option<DumpRow>): string
    requires IsCharacterRow(row)
  {
    Cell(row.value, 3)
  }

  // ---------- one row ----------

  /** What a row does to names, with n cells loaded. */
  ghost predicate NamePart(env: Env, t: TableType, st: State, d: DumpRow, s: State, w: DumpRow, n: nat) {
    && |w.values| == |d.values| && n <= |d.values|
    && (t == Character ==>
          && s.name == (if st.name == "" && n >= 3 then d.values[2] else st.name)
          && (n >= 3 ==> w.values[2] == if st.name == "" then d.values[2] else st.name)
          && (n >= 35 ==> w.values[34] == if st.name == "" && env.nameTaken(Cell(d, 3)) then "1" else d.values[34]))
    && (t != Character ==> s.name == st.name)
  }

  ghost function NamePartRelation(env: Env, t: TableType, st: State, d: DumpRow): (State, DumpRow, nat) -> bool {
    (s: State, w: DumpRow, n: nat) => NamePart(env, t, st, d, s, w, n)
  }

  lemma NoNameCell(env: Env, role: Role, next: Kind -> nat, entryName: string, d: DumpRow, s: State, text: string)
    requires role != Name
    ensures CellStep(env, role, next, entryName, d, s, text).0.name == s.name
  {
  }

  lemma NameCell(env: Env, t: TableType, next: Kind -> nat, st: State, d: DumpRow, s: State, w: DumpRow, n: nat)
    requires n < |d.values| && NamePart(env, t, st, d, s, w, n)
    ensures var (after, text) := CellStep(env, RoleOf(t, n + 1), next, st.name, d, s, d.values[n]);
            NamePart(env, t, st, d, after, With(w, n + 1, text), n + 1)
  {
    if t != Character || n + 1 != 3 {
      assert RoleOf(t, n + 1) != Name;
      NoNameCell(env, RoleOf(t, n + 1), next, st.name, d, s, d.values[n]);
    }
  }

  lemma NamesOfRow(env: Env, t: TableType, next: Kind -> nat, st: State, d: DumpRow)
    ensures var (after, now) := RowStep(env, t, next, st, d); NamePart(env, t, st, d, after, now, |d.values|)
  {
    var inv := NamePartRelation(env, t, st, d);
    assert inv(st, d, 0);
    forall s, w, n: nat | inv(s, w, n) && n < |d.values|
      ensures InvAfter(env, t, next, st, d, s, w, n, inv)
    {
      NameCell(env, t, next, st, d, s, w, n);
    }
    StepsKeep(env, t, next, st, d, |d.values|, inv);
  }

  /** What one line does to the reader's name, and to name and at_login of the row. */
  ghost predicate Named(env: Env, row: Option<DumpRow>, a: State, b: State, now: Option<DumpRow>) {
    if !IsCharacterRow(row) then b.name == a.name
    else
      var d := row.value;
      && now.Some? && |now.value.values| == |d.values| && b.name == (if a.name == "" then NameOf(row) else a.name)
      && (a.name != "" ==> |d.values| >= 3)
      && (a.name == "" && env.nameTaken(NameOf(row)) ==> |d.values| >= 35)
      && (|d.values| >= 3 ==> now.value.values[2] == b.name)
      && (|d.values| >= 35 ==>
            now.value.values[34] == if a.name == "" && env.nameTaken(NameOf(row)) then "1" else d.values[34])
  }

  lemma OneNamed(env: Env, next: Kind -> nat, row: Option<DumpRow>, a: State)
    requires LoadOne(env, next, row, a).Some?
    ensures var (b, now) := LoadOne(env, next, row, a).value; Named(env, row, a, b, now)
  {
    if row.Some? {
      NamesOfRow(env, TypeFrom(row.value.tn, 0).value, next, a, row.value);
    }
  }

  // ---------- whole dumps ----------

  /** No row of characters among the first n has a name. */
  ghost predicate Nameless(rows: seq<Option<DumpRow>>, n: nat) {
    n <= |rows| && forall k :: 0 <= k < n && IsCharacterRow(rows[k]) ==> NameOf(rows[k]) == ""
  }

  /** Row f is the first one that has. */
  ghost predicate IsFirstNamed(rows: seq<Option<DumpRow>>, f: nat) {
    f < |rows| && Nameless(rows, f) && IsCharacterRow(rows[f]) && NameOf(rows[f]) != ""
  }

  /** The reader's name after n rows: the given one, else that of the first row that has one. */
  lemma {:induction false} NameAfter(env: Env, next: Kind -> nat, rows: seq<Option<DumpRow>>, n: nat, a: State)
    requires n <= |rows| && LoadRows(env, next, rows, n, a).Some?
    ensures var name := LoadRows(env, next, rows, n, a).value.0.name;
            && (a.name != "" || Nameless(rows, n) ==> name == a.name)
            && (forall f: nat :: a.name == "" && IsFirstNamed(rows, f) && f < n ==> name == NameOf(rows[f]))
  {
    if n > 0 {
      NameAfter(env, next, rows, n - 1, a);
      var st := LoadRows(env, next, rows, n - 1, a).value.0;
      OneNamed(env, next, rows[n - 1], st);
      if Nameless(rows, n) { assert Nameless(rows, n - 1); }
    }
  }

  /** Row k as it was loaded, from the state it was loaded in. */
  lemma {:induction false} RowAsLoaded(env: Env, next: Kind -> nat, rows: seq<Option<DumpRow>>, n: nat, a: State,
                                       k: nat)
    requires k < n <= |rows| && LoadRows(env, next, rows, n, a).Some?
    ensures LoadRows(env, next, rows, k, a).Some?
    ensures var st, nows := LoadRows(env, next, rows, k, a).value.0, LoadRows(env, next, rows, n, a).value.1;
            && LoadOne(env, next, rows[k], st).Some? && |nows| == n
            && nows[k] == LoadOne(env, next, rows[k], st).value.1
    decreases n
  {
    var st, nows, b, now := LastOfRows(env, next, rows, n - 1, a);
    if k < n - 1 {
      RowAsLoaded(env, next, rows, n - 1, a, k);
    }
  }

  /** The row shows that name and keeps its flag for a forced renaming. */
  ghost predicate Bears(row: Option<DumpRow>, now: Option<DumpRow>, name: string)
    requires IsCharacterRow(row)
  {
    && now.Some? && |now.value.values| == |row.value.values| >= 3 && now.value.values[2] == name
    && (|row.value.values| >= 35 ==> now.value.values[34] == row.value.values[34])
  }

  /** The row keeps its name, and is flagged if and only if that one is taken. */
  ghost predicate KeepsName(env: Env, row: Option<DumpRow>, now: Option<DumpRow>)
    requires IsCharacterRow(row)
  {
    && now.Some? && |now.value.values| == |row.value.values|
    && (|row.value.values| >= 3 ==> now.value.values[2] == row.value.values[2])
    && (if env.nameTaken(NameOf(row)) then |row.value.values| >= 35 && now.value.values[34] == "1"
        else |row.value.values| >= 35 ==> now.value.values[34] == row.value.values[34])
  }

  /** The characters of a loaded dump. With a given name all rows bear it. Without one, the first row that has a
      name keeps it, and is flagged for renaming exactly if it is taken; all later rows bear that name, too. */
  lemma CharactersAreNamed(env: Env, next: Kind -> nat, rows: seq<Option<DumpRow>>, a: State, k: nat)
    requires LoadRows(env, next, rows, |rows|, a).Some? && k < |rows| && IsCharacterRow(rows[k])
    ensures var nows := LoadRows(env, next, rows, |rows|, a).value.1;
            && |nows| == |rows|
            && (a.name != "" ==> Bears(rows[k], nows[k], a.name))
            && (a.name == "" && Nameless(rows, k) ==> KeepsName(env, rows[k], nows[k]))
            && (a.name == "" && !Nameless(rows, k) ==>
                  exists f: nat :: IsFirstNamed(rows, f) && f < k && Bears(rows[k], nows[k], NameOf(rows[f])))
  {
    if a.name == "" && !Nameless(rows, k) {
      var f := SomeFirstNamed(rows, k);
    }
    RowAsLoaded(env, next, rows, |rows|, a, k);
    NameAfter(env, next, rows, k, a);
    OneNamed(env, next, rows[k], LoadRows(env, next, rows, k, a).value.0);
  }

  lemma {:induction false} SomeFirstNamed(rows: seq<Option<DumpRow>>, n: nat) returns (f: nat)
    requires n <= |rows| && !Nameless(rows, n)
    ensures f < n && IsFirstNamed(rows, f)
  {
    if Nameless(rows, n - 1) {
      f := n - 1;
    } else {
      f := SomeFirstNamed(rows, n - 1);
    }
  }

  /** A dump of one character that brings a name somebody else has: it is asked for another one. */
  lemma TakenNameIsFlagged(env: Env, next: Kind -> nat, rows: seq<Option<DumpRow>>, a: State, k: nat)
    requires LoadRows(env, next, rows, |rows|, a).Some? && a.name == ""
    requires k < |rows| && IsCharacterRow(rows[k]) && env.nameTaken(NameOf(rows[k]))
    requires forall j :: 0 <= j < |rows| && IsCharacterRow(rows[j]) ==> j == k
    ensures var nows := LoadRows(env, next, rows, |rows|, a).value.1;
            && |nows| == |rows| && nows[k].Some? && |nows[k].value.values| >= 35
            && nows[k].value.values[2] == NameOf(rows[k]) && nows[k].value.values[34] == "1"
  {
    CharactersAreNamed(env, next, rows, a, k);
  }
}
