/** PlayerDumpReader of src/game/PlayerDump.cpp: the rewriting of one line and the loop over all of them. */
module DumpReading {
  import opened Basics
  import opened DumpIds
  import opened DumpLoad
  import opened DumpText

  /** The next free id of each kind. */
  function NextIds(items: nat, mails: nat, texts: nat): Kind -> nat {
    (k: Kind) => match k case Items => items case Mails => mails case Texts => texts
  }

  /** What rewriting a line comes to, if it shows row d: it fails exactly when the row is incomplete, and
      otherwise the line and the reader's state are what loading the row cell by cell gives. */
  ghost predicate Outcome(env: Env, t: TableType, next: Kind -> nat, a: State, d: DumpRow,
                          b: State, now: DumpRow, r: Status, str: string) {
    && r == (if Complete(env, t, a, d) then Done else Failed)
    && (r == Done ==> Shows(str, now) && (b, now) == RowStep(env, t, next, a, d))
  }

  /** The cells up to column c are done. */
  ghost predicate At(env: Env, t: TableType, next: Kind -> nat, a: State, d: DumpRow, c: nat, b: State, now: DumpRow) {
    (b, now) == Steps(env, t, next, a, d, if c < |d.values| then c else |d.values|)
  }

  /** Past data columns. */
  lemma AtLater(env: Env, t: TableType, next: Kind -> nat, a: State, d: DumpRow, b: nat, c: nat, st: State,
                now: DumpRow)
    requires At(env, t, next, a, d, b, st, now)
    requires b <= c && forall k :: b < k <= c && k <= |d.values| ==> RoleOf(t, k) == Data
    ensures At(env, t, next, a, d, c, st, now)
  {
    if b < |d.values| {
      DataSteps(env, t, next, a, d, b, if c < |d.values| then c else |d.values|);
    }
  }

  /** If the line showed row d at first, it now shows it with the cells up to column c done. */
  ghost predicate Progress(env: Env, t: TableType, next: Kind -> nat, a: State, d: DumpRow, shown: bool,
                           c: nat, st: State, now: DumpRow, str: string) {
    shown ==> Shows(str, now) && At(env, t, next, a, d, c, st, now)
  }

  lemma Started(env: Env, t: TableType, next: Kind -> nat, a: State, d: DumpRow, shown: bool, str: string)
    requires shown ==> Shows(str, d)
    ensures Progress(env, t, next, a, d, shown, 0, a, d, str)
  {
  }

  lemma PassData(env: Env, t: TableType, next: Kind -> nat, a: State, d: DumpRow, shown: bool,
                 b: nat, c: nat, st: State, now: DumpRow, str: string)
    requires Progress(env, t, next, a, d, shown, b, st, now, str) && b <= c
    requires forall k :: b < k <= c ==> RoleOf(t, k) == Data
    ensures Progress(env, t, next, a, d, shown, c, st, now, str)
  {
    if shown {
      AtLater(env, t, next, a, d, b, c, st, now);
    }
  }

  lemma Finished(env: Env, t: TableType, next: Kind -> nat, a: State, d: DumpRow, shown: bool,
                 c: nat, st: State, now: DumpRow, str: string)
    requires Progress(env, t, next, a, d, shown, c, st, now, str)
    requires forall k :: c < k ==> RoleOf(t, k) == Data
    ensures shown ==> Shows(str, now) && (st, now) == RowStep(env, t, next, a, d)
  {
    if shown {
      AtLater(env, t, next, a, d, c, if c < |d.values| then |d.values| else c, st, now);
    }
  }

  /** One column on. */
  lemma NextCell(env: Env, t: TableType, next: Kind -> nat, a: State, d: DumpRow, c: nat,
                 st: State, was: DumpRow, after: State, text: string)
    requires 0 < c <= |d.values| && At(env, t, next, a, d, c - 1, st, was)
    requires (after, text) == CellStep(env, RoleOf(t, c), next, a.name, d, st, d.values[c - 1])
    ensures |was.values| == |d.values| && At(env, t, next, a, d, c, after, With(was, c, text))
  {
  }

  lemma CellUntouched(env: Env, t: TableType, next: Kind -> nat, a: State, d: DumpRow, c: nat, st: State, was: DumpRow)
    requires At(env, t, next, a, d, c, st, was)
    ensures |was.values| == |d.values| && forall k :: c <= k < |d.values| ==> was.values[k] == d.values[k]
    ensures c >= |d.values| ==> At(env, t, next, a, d, c + 1, st, was)
  {
    if c <= |d.values| {
      LaterCellsUntouched(env, t, next, a, d, c);
    }
  }

  lemma NextRef(env: Env, t: TableType, next: Kind -> nat, a: State, d: DumpRow, n: nat, st: State, was: DumpRow,
                kind: Kind, nonzero: bool)
    requires n > 0 && At(env, t, next, a, d, n - 1, st, was) && RoleOf(t, n) == Ref(kind, nonzero)
    ensures |was.values| == |d.values|
    ensures n > |d.values| ==> At(env, t, next, a, d, n, st, was)
    ensures n <= |d.values| ==>
              var (after, text) := RefStep(kind, nonzero, next, st, was.values[n - 1]);
              At(env, t, next, a, d, n, after, With(was, n, text))
  {
    CellUntouched(env, t, next, a, d, n - 1, st, was);
    if n <= |d.values| {
      var (after, text) := RefStep(kind, nonzero, next, st, d.values[n - 1]);
      NextCell(env, t, next, a, d, n, st, was, after, text);
    }
  }

  /** The dump's own name is kept, and noted. */
  lemma PassOwnName(env: Env, next: Kind -> nat, a: State, d: DumpRow, shown: bool, st: State, was: DumpRow,
                    str: string)
    requires Progress(env, Character, next, a, d, shown, 2, st, was, str) && st.name == ""
    ensures Progress(env, Character, next, a, d, shown, 3, st.(name := Cell(d, 3)), was, str)
    ensures shown ==> Cell(was, 3) == Cell(d, 3)
  {
    if shown {
      CellUntouched(env, Character, next, a, d, 2, st, was);
      if 3 <= |d.values| {
        NextCell(env, Character, next, a, d, 3, st, was, st.(name := d.values[2]), d.values[2]);
        assert With(was, 3, d.values[2]) == was;
      }
    }
  }

  /** No forced renaming. */
  lemma PassLogin(env: Env, next: Kind -> nat, a: State, d: DumpRow, shown: bool, st: State, was: DumpRow, str: string)
    requires Progress(env, Character, next, a, d, shown, 34, st, was, str)
    requires shown && a.name == "" ==> !env.nameTaken(Cell(d, 3))
    ensures Progress(env, Character, next, a, d, shown, 35, st, was, str)
  {
    if shown {
      CellUntouched(env, Character, next, a, d, 34, st, was);
      if 35 <= |d.values| {
        NextCell(env, Character, next, a, d, 35, st, was, st, d.values[34]);
        assert With(was, 35, d.values[34]) == was;
      }
    }
  }

  lemma PetIdCell(env: Env, next: Kind -> nat, st: State, d: DumpRow)
    requires d.values != []
    ensures CellStep(env, RoleOf(Pet, 1), next, st.name, d, st, d.values[0])
         == (PetStep(env, st, Cell(d, 1)), PetStep(env, st, Cell(d, 1)).newPet)
  {
  }

  // ---------- lines and dumps ----------

  predicate IsBlank(c: char) {
    c == ' ' || c == '\t' || c == '\n' || c == '\r' || c as int == 7
  }

  /** The first position from k on that is not blank, or the end. */
  function FirstOther(s: string, k: nat): (r: nat)
    requires k <= |s|
    ensures k <= r <= |s| && (r < |s| ==> !IsBlank(s[r])) && (k < |s| && !IsBlank(s[k]) ==> r == k)
    decreases |s| - k
  {
    if k == |s| || !IsBlank(s[k]) then k else FirstOther(s, k + 1)
  }

  function Substr(s: string, k: nat, n: nat): string
    requires k <= |s|
  {
    if k + n <= |s| then s[k..k + n] else s[k..]
  }

  /** A line without a row: blank, a note, or the check of the database version. */
  predicate IsRemark(text: string) {
    var at := FirstOther(text, 0);
    at == |text| || IsNote(Substr(text, at, 15)) || IsVersionCheck(Substr(text, at, 41))
  }

  predicate IsNote(s: string) {
    s == "IMPORTANT NOTE:"
  }

  predicate IsVersionCheck(s: string) {
    s == "UPDATE character_db_version SET required_"
  }

  ghost predicate LineShown(text: string, row: Option<DumpRow>) {
    if row.Some? then Shows(text, row.value) else IsRemark(text)
  }

  /** The dump's lines show these rows, one each where there is one. */
  ghost predicate AllShown(dump: seq<string>, rows: seq<Option<DumpRow>>) {
    |dump| == |rows| && forall k :: 0 <= k < |dump| ==> LineShown(dump[k], rows[k])
  }

  ghost predicate SentShown(sent: seq<Option<string>>, nows: seq<Option<DumpRow>>)
    decreases |sent|, 1
  {
    |sent| == |nows| && (nows != [] ==> LastShown(sent, nows))
  }

  ghost predicate LastShown(sent: seq<Option<string>>, nows: seq<Option<DumpRow>>)
    requires |sent| == |nows| > 0
    decreases |sent|, 0
  {
    var k := |nows| - 1;
    OneShown(sent[k], nows[k]) && SentShown(sent[..k], nows[..k])
  }

  lemma {:induction false} SentShownAt(sent: seq<Option<string>>, nows: seq<Option<DumpRow>>, k: nat)
    requires SentShown(sent, nows) && k < |nows|
    ensures OneShown(sent[k], nows[k])
  {
    if k < |nows| - 1 {
      SentShownAt(sent[..|nows| - 1], nows[..|nows| - 1], k);
    }
  }

  ghost predicate OneShown(sent: Option<string>, now: Option<DumpRow>) {
    now.Some? ==> sent.Some? && Shows(sent.value, now.value)
  }

  lemma {:induction false} EmptyNameIsUnknown(k: nat)
    requires k <= TABLE_COUNT
    ensures TypeFrom("", k) == None
    decreases TABLE_COUNT - k
  {
    if k < TABLE_COUNT {
      assert |DumpTable(k).0| > 0;
      EmptyNameIsUnknown(k + 1);
    }
  }

  lemma RowIsNoRemark(text: string, d: DumpRow)
    requires Shows(text, d)
    ensures !IsRemark(text)
  {
    assert text[0] == 'I' && text[1] == 'N';
    assert FirstOther(text, 0) == 0;
    assert Substr(text, 0, 15)[1] == 'N';
    assert Substr(text, 0, 41)[0] == 'I';
  }

  datatype DumpReturn = Success | FileBroken | Hangs

  /** Loading one row, if there is one; no result if its table is unknown or it is incomplete. */
  ghost function LoadOne(env: Env, next: Kind -> nat, row: Option<DumpRow>,
                         a: State): Option<(State, Option<DumpRow>)>
  {
    match row
    case None => Some((a, None))
    case Some(d) =>
      match TypeFrom(d.tn, 0)
      case None => None
      case Some(t) =>
        if Complete(env, t, a, d) then var (b, now) := RowStep(env, t, next, a, d); Some((b, Some(now))) else None
  }

  /** Loading the first n rows. */
  ghost function LoadRows(env: Env, next: Kind -> nat, rows: seq<Option<DumpRow>>, n: nat, a: State)
    : Option<(State, seq<Option<DumpRow>>)>
    requires n <= |rows|
    decreases n, 1
  {
    if n == 0 then Some((a, [])) else LoadOneMore(env, next, rows, n, a)
  }

  ghost function LoadOneMore(env: Env, next: Kind -> nat, rows: seq<Option<DumpRow>>, n: nat, a: State)
    : Option<(State, seq<Option<DumpRow>>)>
    requires 0 < n <= |rows|
    decreases n, 0
  {
    match LoadRows(env, next, rows, n - 1, a)
    case None => None
    case Some((st, nows)) =>
      match LoadOne(env, next, rows[n - 1], st)
      case None => None
      case Some((b, now)) => Some((b, nows + [now]))
  }

  lemma LoadRowsNext(env: Env, next: Kind -> nat, rows: seq<Option<DumpRow>>, i: nat, a: State)
    requires i < |rows| && LoadRows(env, next, rows, i, a).Some?
    ensures var (st, nows) := LoadRows(env, next, rows, i, a).value;
            LoadRows(env, next, rows, i + 1, a) ==
            match LoadOne(env, next, rows[i], st)
            case None => None
            case Some((b, now)) => Some((b, nows + [now]))
    ensures LoadRows(env, next, rows, i + 1, a) == None ==> LoadRows(env, next, rows, |rows|, a) == None
  {
    if LoadRows(env, next, rows, i + 1, a) == None {
      NothingLater(env, next, rows, i + 1, |rows|, a);
    }
  }

  lemma {:induction false} NothingLater(env: Env, next: Kind -> nat, rows: seq<Option<DumpRow>>, i: nat, n: nat,
                                        a: State)
    requires i <= n <= |rows| && LoadRows(env, next, rows, i, a) == None
    ensures LoadRows(env, next, rows, n, a) == None
    decreases n
  {
    if i < n {
      NothingLater(env, next, rows, i, n - 1, a);
    }
  }

  /** With i rows loaded. */
  ghost predicate Loaded(env: Env, next: Kind -> nat, rows: seq<Option<DumpRow>>, a: State, shown: bool, i: nat,
                         st: State, nows: seq<Option<DumpRow>>, sent: seq<Option<string>>) {
    shown ==> i <= |rows| && LoadRows(env, next, rows, i, a) == Some((st, nows)) && SentShown(sent, nows)
  }

  lemma LoadedNext(env: Env, next: Kind -> nat, rows: seq<Option<DumpRow>>, a: State, shown: bool, i: nat,
                   st: State, nows: seq<Option<DumpRow>>, sent: seq<Option<string>>,
                   b: State, now: Option<DumpRow>, one: Option<string>)
    requires i < |rows| && Loaded(env, next, rows, a, shown, i, st, nows, sent)
    requires shown ==> LoadOne(env, next, rows[i], st) == Some((b, now)) && OneShown(one, now)
    ensures Loaded(env, next, rows, a, shown, i + 1, b, nows + [now], sent + [one])
  {
    if shown {
      LoadRowsNext(env, next, rows, i, a);
      assert (sent + [one])[..|sent|] == sent && (nows + [now])[..|nows|] == nows;
    }
  }

  lemma LoadedNoMore(env: Env, next: Kind -> nat, rows: seq<Option<DumpRow>>, a: State, shown: bool, i: nat,
                     st: State, nows: seq<Option<DumpRow>>, sent: seq<Option<string>>)
    requires i < |rows| && Loaded(env, next, rows, a, shown, i, st, nows, sent)
    ensures shown && LoadOne(env, next, rows[i], st) == None ==> LoadRows(env, next, rows, |rows|, a) == None
  {
    if shown {
      LoadRowsNext(env, next, rows, i, a);
    }
  }

  lemma CellIsWhole(d: DumpRow, n: nat)
    requires n > 0
    ensures if n <= |d.values| then Cell(d, n) == d.values[n - 1] else ReadId(Cell(d, n)) == 0
  {
    ZeroReads();
  }

  /** Where the id is not a zero to be kept, the whole value is replaced. */
  lemma RewrittenWhole(d: DumpRow, n: nat, with: string, nonzero: bool)
    requires n > 0
    ensures n <= |d.values| && !(nonzero && ReadId(d.values[n - 1]) == 0) ==>
              Rewritten(d, n, with, nonzero) == With(d, n, with)
    ensures n > |d.values| ==> Rewritten(d, n, with, nonzero) == d
  {
    ZeroReads();
  }

  class DumpReader {
    const env: Env
    const newguid: string
    const chraccount: string
    var name: string
    var items: IdMap
    var mails: IdMap
    var itemTexts: IdMap
    var petids: IdMap
    var newpetid: string
    var lastpetid: string
    var petsDrawn: nat
    /** The id generators of the object manager. */
    var nextItem: nat
    var nextMail: nat
    var nextText: nat
    var textCache: map<Id, string>

    constructor (env: Env, name: string, nextItem: nat, nextMail: nat, nextText: nat)
      requires Short(name)
      ensures this.env == env && Valid()
      ensures Fields() == State(name, map[], map[], map[], map[], PrintId(env.petNumber(0)), "", 1)
      ensures this.nextItem == nextItem && this.nextMail == nextMail && this.nextText == nextText
    {
      PrintedIdFits(env.petNumber(0));
      this.env := env;
      newguid, chraccount := PrintId(env.guid), PrintId(env.account);
      this.name := name;
      items, mails, itemTexts, petids := map[], map[], map[], map[];
      newpetid, lastpetid, petsDrawn := PrintId(env.petNumber(0)), "", 1;
      this.nextItem, this.nextMail, this.nextText := nextItem, nextMail, nextText;
      textCache := map[];
    }

    function Fields(): State
      reads this
    {
      State(name, items, mails, itemTexts, petids, newpetid, lastpetid, petsDrawn)
    }

    function Next(): Kind -> nat
      reads this`nextItem, this`nextMail, this`nextText
    {
      NextIds(nextItem, nextMail, nextText)
    }

    ghost predicate Valid()
      reads this
    {
      newguid == PrintId(env.guid) && chraccount == PrintId(env.account) && Short(name) && Short(newpetid)
    }

    method Register(kind: Kind, oldGuid: Id) returns (newGuid: Id)
      modifies this`items, this`mails, this`itemTexts
      ensures Fields() == WithId(old(Fields()), kind, Next(), oldGuid)
      ensures oldGuid in IdsOf(Fields(), kind) && newGuid == IdsOf(Fields(), kind)[oldGuid]
    {
      match kind
      case Items => newGuid, items := RegisterNewGuid(oldGuid, items, nextItem);
      case Mails => newGuid, mails := RegisterNewGuid(oldGuid, mails, nextMail);
      case Texts => newGuid, itemTexts := RegisterNewGuid(oldGuid, itemTexts, nextText);
    }

    /** Replaces an id in a line by its new one. */
    method ChangeGuid(line: DumpLine, n: nat, kind: Kind, nonzero: bool, ghost k: nat, ghost d: DumpRow)
      returns (r: Status, ghost now: DumpRow)
      requires n > 0 && Room(line.str, k + 1)
      modifies line, this`items, this`mails, this`itemTexts
      ensures Room(line.str, k)
      ensures Shows(old(line.str), d) ==>
                r == (if n <= |d.values| || nonzero then Done else Failed) && (r == Done ==> Shows(line.str, now))
      ensures Shows(old(line.str), d) ==>
                if n <= |d.values| then
                  var (after, text) := RefStep(kind, nonzero, Next(), old(Fields()), d.values[n - 1]);
                  Fields() == after && now == With(d, n, text)
                else nonzero ==> Fields() == old(Fields()) && now == d
    {
      var text, stuck := ReadCell(line, n, d);
      if stuck {
        return Stuck, d;
      }
      var oldGuid := ReadId(text);
      CellIsWhole(d, n);
      if nonzero && oldGuid == 0 {
        return Done, d;
      }
      var newGuid := Register(kind, oldGuid);
      PrintedIdFits(newGuid);
      RewrittenWhole(d, n, PrintId(newGuid), nonzero);
      r, now := WriteCell(line, n, PrintId(newGuid), nonzero, k, d);
    }

    /** changenth with a text that the column's role prescribes; st is the state before the cell. */
    method ChangeCell(line: DumpLine, n: nat, with: string, ghost t: TableType, ghost k: nat,
                      ghost a: State, ghost d: DumpRow, ghost shown: bool, ghost st: State, ghost was: DumpRow)
      returns (r: Status, ghost now: DumpRow)
      requires n > 0 && Short(with) && Room(line.str, k + 1)
      requires Progress(env, t, Next(), a, d, shown, n - 1, st, was, line.str)
      requires shown && n <= |d.values| ==>
                 CellStep(env, RoleOf(t, n), Next(), a.name, d, st, d.values[n - 1]) == (Fields(), with)
      modifies line
      ensures Room(line.str, k) && |line.str| <= |old(line.str)| + |with|
      ensures shown ==> r == if n <= |d.values| then Done else Failed
      ensures r == Done ==> Progress(env, t, Next(), a, d, shown, n, Fields(), now, line.str)
    {
      r, now := WriteCell(line, n, with, false, k, was);
      if shown {
        CellUntouched(env, t, Next(), a, d, n - 1, st, was);
        if n <= |d.values| {
          NextCell(env, t, Next(), a, d, n, st, was, Fields(), with);
        }
      }
    }

    /** The character's new guid goes in. */
    method ChangeOwner(line: DumpLine, n: nat, ghost t: TableType, ghost k: nat,
                       ghost a: State, ghost d: DumpRow, ghost shown: bool, ghost was: DumpRow)
      returns (r: Status, ghost now: DumpRow)
      requires Valid() && n > 0 && Room(line.str, k + 1) && RoleOf(t, n) == Owner
      requires Progress(env, t, Next(), a, d, shown, n - 1, Fields(), was, line.str)
      modifies line
      ensures Room(line.str, k) && |line.str| <= |old(line.str)| + 20
      ensures shown ==> r == if n <= |d.values| then Done else Failed
      ensures r == Done ==> Progress(env, t, Next(), a, d, shown, n, Fields(), now, line.str)
    {
      PrintedIdFits(env.guid);
      r, now := ChangeCell(line, n, newguid, t, k, a, d, shown, Fields(), was);
    }

    /** changeGuid in a column that holds such a reference. */
    method ChangeRef(line: DumpLine, n: nat, kind: Kind, nonzero: bool, ghost t: TableType, ghost k: nat,
                     ghost a: State, ghost d: DumpRow, ghost shown: bool, ghost was: DumpRow)
      returns (r: Status, ghost now: DumpRow)
      requires n > 0 && Room(line.str, k + 1) && RoleOf(t, n) == Ref(kind, nonzero)
      requires Progress(env, t, Next(), a, d, shown, n - 1, Fields(), was, line.str)
      modifies line, this`items, this`mails, this`itemTexts
      ensures Room(line.str, k)
      ensures shown ==> r == if n <= |d.values| || nonzero then Done else Failed
      ensures r == Done ==> Progress(env, t, Next(), a, d, shown, n, Fields(), now, line.str)
    {
      if shown {
        NextRef(env, t, Next(), a, d, n, Fields(), was, kind, nonzero);
      }
      r, now := ChangeGuid(line, n, kind, nonzero, k, was);
    }

    method LoadCharTable(line: DumpLine, ghost d: DumpRow, ghost shown: bool) returns (r: Status, ghost now: DumpRow)
      requires Valid() && Room(line.str, 4) && (shown ==> Shows(line.str, d))
      modifies line
      ensures Valid()
      ensures shown ==>
                Outcome(env, CharTable, Next(), old(Fields()), d, Fields(), now, r, line.str)
    {
      ghost var a := Fields();
      Started(env, CharTable, Next(), a, d, shown, line.str);
      r, now := ChangeOwner(line, 1, CharTable, 3, a, d, shown, d);
      if r == Done {
        Finished(env, CharTable, Next(), a, d, shown, 1, Fields(), now, line.str);
      }
    }

    /** character_inventory.guid and .bag, and on to the item */
    method ChangeBag(line: DumpLine, ghost a: State, ghost d: DumpRow, ghost shown: bool)
      returns (r: Status, ghost now: DumpRow)
      requires Valid() && Room(line.str, 4) && a == Fields() && (shown ==> Shows(line.str, d))
      modifies line, this`items, this`mails, this`itemTexts
      ensures Valid() && Room(line.str, 2)
      ensures shown ==> r == if |d.values| >= 1 then Done else Failed
      ensures r == Done ==> Progress(env, Inventory, Next(), a, d, shown, 3, Fields(), now, line.str)
    {
      Started(env, Inventory, Next(), a, d, shown, line.str);
      r, now := ChangeOwner(line, 1, Inventory, 3, a, d, shown, d);
      if r == Done {
        r, now := ChangeRef(line, 2, Items, true, Inventory, 2, a, d, shown, now);
        if r == Done {
          PassData(env, Inventory, Next(), a, d, shown, 2, 3, Fields(), now, line.str);
        }
      }
    }

    method LoadInventory(line: DumpLine, ghost d: DumpRow, ghost shown: bool) returns (r: Status, ghost now: DumpRow)
      requires Valid() && Room(line.str, 4) && (shown ==> Shows(line.str, d))
      modifies line, this`items, this`mails, this`itemTexts
      ensures Valid()
      ensures shown ==>
                Outcome(env, Inventory, Next(), old(Fields()), d, Fields(), now, r, line.str)
    {
      ghost var a := Fields();
      r, now := ChangeBag(line, a, d, shown);
      if r == Done {
        r, now := ChangeRef(line, 4, Items, false, Inventory, 1, a, d, shown, now);
        if r == Done {
          Finished(env, Inventory, Next(), a, d, shown, 4, Fields(), now, line.str);
        }
      }
    }

    method LoadItem(line: DumpLine, ghost d: DumpRow, ghost shown: bool) returns (r: Status, ghost now: DumpRow)
      requires Valid() && Room(line.str, 4) && (shown ==> Shows(line.str, d))
      modifies line, this`items, this`mails, this`itemTexts
      ensures Valid()
      ensures shown ==>
                Outcome(env, Item, Next(), old(Fields()), d, Fields(), now, r, line.str)
    {
      ghost var a := Fields();
      Started(env, Item, Next(), a, d, shown, line.str);
      r, now := ChangeRef(line, 1, Items, false, Item, 3, a, d, shown, d);
      if r == Done {
        PassData(env, Item, Next(), a, d, shown, 1, 2, Fields(), now, line.str);
        r, now := ChangeOwner(line, 3, Item, 2, a, d, shown, now);
        if r == Done {
          PassData(env, Item, Next(), a, d, shown, 3, 12, Fields(), now, line.str);
          r, now := ChangeRef(line, 13, Texts, true, Item, 1, a, d, shown, now);
          if r == Done {
            Finished(env, Item, Next(), a, d, shown, 13, Fields(), now, line.str);
          }
        }
      }
    }

    method LoadItemGift(line: DumpLine, ghost d: DumpRow, ghost shown: bool) returns (r: Status, ghost now: DumpRow)
      requires Valid() && Room(line.str, 4) && (shown ==> Shows(line.str, d))
      modifies line, this`items, this`mails, this`itemTexts
      ensures Valid()
      ensures shown ==>
                Outcome(env, ItemGift, Next(), old(Fields()), d, Fields(), now, r, line.str)
    {
      ghost var a := Fields();
      Started(env, ItemGift, Next(), a, d, shown, line.str);
      r, now := ChangeOwner(line, 1, ItemGift, 3, a, d, shown, d);
      if r == Done {
        r, now := ChangeRef(line, 2, Items, false, ItemGift, 2, a, d, shown, now);
        if r == Done {
          Finished(env, ItemGift, Next(), a, d, shown, 2, Fields(), now, line.str);
        }
      }
    }

    method LoadItemLoot(line: DumpLine, ghost d: DumpRow, ghost shown: bool) returns (r: Status, ghost now: DumpRow)
      requires Valid() && Room(line.str, 4) && (shown ==> Shows(line.str, d))
      modifies line, this`items, this`mails, this`itemTexts
      ensures Valid()
      ensures shown ==>
                Outcome(env, ItemLoot, Next(), old(Fields()), d, Fields(), now, r, line.str)
    {
      ghost var a := Fields();
      Started(env, ItemLoot, Next(), a, d, shown, line.str);
      r, now := ChangeRef(line, 1, Items, false, ItemLoot, 3, a, d, shown, d);
      if r == Done {
        r, now := ChangeOwner(line, 2, ItemLoot, 2, a, d, shown, now);
        if r == Done {
          Finished(env, ItemLoot, Next(), a, d, shown, 2, Fields(), now, line.str);
        }
      }
    }

    /** mail.id and mail.receiver, and on to the text */
    method ChangeMailIds(line: DumpLine, ghost a: State, ghost d: DumpRow, ghost shown: bool)
      returns (r: Status, ghost now: DumpRow)
      requires Valid() && Room(line.str, 4) && a == Fields() && (shown ==> Shows(line.str, d))
      modifies line, this`items, this`mails, this`itemTexts
      ensures Valid() && Room(line.str, 2)
      ensures shown ==> r == if |d.values| >= 6 then Done else Failed
      ensures r == Done ==> Progress(env, Mail, Next(), a, d, shown, 7, Fields(), now, line.str)
    {
      Started(env, Mail, Next(), a, d, shown, line.str);
      r, now := ChangeRef(line, 1, Mails, false, Mail, 3, a, d, shown, d);
      if r == Done {
        PassData(env, Mail, Next(), a, d, shown, 1, 5, Fields(), now, line.str);
        r, now := ChangeOwner(line, 6, Mail, 2, a, d, shown, now);
        if r == Done {
          PassData(env, Mail, Next(), a, d, shown, 6, 7, Fields(), now, line.str);
        }
      }
    }

    method LoadMail(line: DumpLine, ghost d: DumpRow, ghost shown: bool) returns (r: Status, ghost now: DumpRow)
      requires Valid() && Room(line.str, 4) && (shown ==> Shows(line.str, d))
      modifies line, this`items, this`mails, this`itemTexts
      ensures Valid()
      ensures shown ==>
                Outcome(env, Mail, Next(), old(Fields()), d, Fields(), now, r, line.str)
    {
      ghost var a := Fields();
      r, now := ChangeMailIds(line, a, d, shown);
      if r == Done {
        r, now := ChangeRef(line, 8, Texts, false, Mail, 1, a, d, shown, now);
        if r == Done {
          Finished(env, Mail, Next(), a, d, shown, 8, Fields(), now, line.str);
        }
      }
    }

    /** mail_items.id and mail_items.item_guid */
    method ChangeMailItemIds(line: DumpLine, ghost a: State, ghost d: DumpRow, ghost shown: bool)
      returns (r: Status, ghost now: DumpRow)
      requires Room(line.str, 4) && a == Fields() && (shown ==> Shows(line.str, d))
      modifies line, this`items, this`mails, this`itemTexts
      ensures Room(line.str, 2)
      ensures shown ==> r == if |d.values| >= 2 then Done else Failed
      ensures r == Done ==> Progress(env, MailItem, Next(), a, d, shown, 2, Fields(), now, line.str)
    {
      Started(env, MailItem, Next(), a, d, shown, line.str);
      r, now := ChangeRef(line, 1, Mails, false, MailItem, 3, a, d, shown, d);
      if r == Done {
        r, now := ChangeRef(line, 2, Items, false, MailItem, 2, a, d, shown, now);
      }
    }

    method LoadMailItem(line: DumpLine, ghost d: DumpRow, ghost shown: bool) returns (r: Status, ghost now: DumpRow)
      requires Valid() && Room(line.str, 4) && (shown ==> Shows(line.str, d))
      modifies line, this`items, this`mails, this`itemTexts
      ensures Valid()
      ensures shown ==>
                Outcome(env, MailItem, Next(), old(Fields()), d, Fields(), now, r, line.str)
    {
      ghost var a := Fields();
      r, now := ChangeMailItemIds(line, a, d, shown);
      if r == Done {
        PassData(env, MailItem, Next(), a, d, shown, 2, 3, Fields(), now, line.str);
        r, now := ChangeOwner(line, 4, MailItem, 1, a, d, shown, now);
        if r == Done {
          Finished(env, MailItem, Next(), a, d, shown, 4, Fields(), now, line.str);
        }
      }
    }

    method LoadItemText(line: DumpLine, ghost d: DumpRow, ghost shown: bool) returns (r: Status, ghost now: DumpRow)
      requires Valid() && Room(line.str, 4) && (shown ==> Shows(line.str, d))
      modifies line, this`items, this`mails, this`itemTexts, this`textCache
      ensures Valid()
      ensures shown ==>
                Outcome(env, ItemText, Next(), old(Fields()), d, Fields(), now, r, line.str)
      ensures shown && r == Done ==>
                textCache == old(textCache)[ReadId(Cell(now, 1)) := Cell(now, 2)]
    {
      ghost var a := Fields();
      Started(env, ItemText, Next(), a, d, shown, line.str);
      r, now := ChangeRef(line, 1, Texts, false, ItemText, 3, a, d, shown, d);
      if r != Done {
        return;
      }
      var id, stuck := ReadCell(line, 1, now);
      var text, stuckToo := ReadCell(line, 2, now);
      if stuck || stuckToo {
        return Stuck, now;
      }
      textCache := textCache[ReadId(id) := text];
      if r == Done {
        Finished(env, ItemText, Next(), a, d, shown, 1, Fields(), now, line.str);
      }
    }

    /** A new number for a pet that differs from the last one, and a note of it. */
    method NotePet(id: string)
      requires Valid()
      modifies this`petids, this`newpetid, this`lastpetid, this`petsDrawn
      ensures Valid() && Fields() == PetStep(env, old(Fields()), id)
    {
      var currpetid := Clip(id);
      if |lastpetid| == 0 {
        lastpetid := currpetid;
      }
      if lastpetid != currpetid {
        PrintedIdFits(env.petNumber(petsDrawn));
        newpetid := PrintId(env.petNumber(petsDrawn));
        petsDrawn := petsDrawn + 1;
        lastpetid := currpetid;
      }
      if ReadId(currpetid) !in petids {
        petids := petids[ReadId(currpetid) := ReadId(newpetid)];
      }
    }

    /** character_pet.id */
    method ChangePetId(line: DumpLine, ghost a: State, ghost d: DumpRow, ghost shown: bool)
      returns (r: Status, ghost now: DumpRow)
      requires Valid() && Room(line.str, 4) && a == Fields() && (shown ==> Shows(line.str, d))
      modifies line, this`petids, this`newpetid, this`lastpetid, this`petsDrawn
      ensures Valid() && Room(line.str, 3)
      ensures shown ==> r == Done
      ensures r == Done ==> Progress(env, Pet, Next(), a, d, shown, 1, Fields(), now, line.str)
    {
      var id, stuck := ReadCell(line, 1, d);
      if stuck {
        return Stuck, d;
      }
      Started(env, Pet, Next(), a, d, shown, line.str);
      NotePet(id);
      if shown {
        PetIdCell(env, Next(), a, d);
      }
      r, now := ChangeCell(line, 1, newpetid, Pet, 3, a, d, shown, a, d);
    }

    method LoadPet(line: DumpLine, ghost d: DumpRow, ghost shown: bool) returns (r: Status, ghost now: DumpRow)
      requires Valid() && Room(line.str, 4) && (shown ==> Shows(line.str, d))
      modifies line, this`petids, this`newpetid, this`lastpetid, this`petsDrawn
      ensures Valid()
      ensures shown ==>
                Outcome(env, Pet, Next(), old(Fields()), d, Fields(), now, r, line.str)
    {
      ghost var a := Fields();
      r, now := ChangePetId(line, a, d, shown);
      if r == Done {
        PassData(env, Pet, Next(), a, d, shown, 1, 2, Fields(), now, line.str);
        r, now := ChangeOwner(line, 3, Pet, 2, a, d, shown, now);
        if r == Done {
          Finished(env, Pet, Next(), a, d, shown, 3, Fields(), now, line.str);
        }
      }
    }

    method LoadPetTable(line: DumpLine, ghost d: DumpRow, ghost shown: bool) returns (r: Status, ghost now: DumpRow)
      requires Valid() && Room(line.str, 4) && (shown ==> Shows(line.str, d))
      modifies line, this`newpetid
      ensures Valid()
      ensures shown ==>
                Outcome(env, PetTable, Next(), old(Fields()), d, Fields(), now, r, line.str)
    {
      ghost var a := Fields();
      Started(env, PetTable, Next(), a, d, shown, line.str);
      var id, stuck := ReadCell(line, 1, d);
      if stuck {
        return Stuck, d;
      }
      var currpetid := Clip(id);
      if ReadId(currpetid) !in petids {
        return Failed, d;
      }
      PrintedIdFits(petids[ReadId(currpetid)]);
      newpetid := PrintId(petids[ReadId(currpetid)]);
      r, now := ChangeCell(line, 1, newpetid, PetTable, 3, a, d, shown, a, d);
      if r == Done {
        Finished(env, PetTable, Next(), a, d, shown, 1, Fields(), now, line.str);
      }
    }

    method LoadCharacter(line: DumpLine, ghost d: DumpRow, ghost shown: bool) returns (r: Status, ghost now: DumpRow)
      requires Valid() && Room(line.str, 4) && |line.str| <= MAX_LINE && (shown ==> Shows(line.str, d))
      modifies line, this`name
      ensures Valid()
      ensures shown ==>
                Outcome(env, Character, Next(), old(Fields()), d, Fields(), now, r, line.str)
    {
      PrintedIdFits(env.account);
      ghost var a := Fields();
      Started(env, Character, Next(), a, d, shown, line.str);
      r, now := ChangeOwner(line, 1, Character, 3, a, d, shown, d);
      if r != Done {
        return;
      }
      r, now := ChangeCell(line, 2, chraccount, Character, 2, a, d, shown, a, now);
      if r != Done {
        return;
      }
      r, now := LoadName(line, a, d, shown, now);
      if r == Done {
        Finished(env, Character, Next(), a, d, shown, 35, Fields(), now, line.str);
      }
    }

    /** characters.name, and characters.at_login where the dump's own name is taken. */
    method LoadName(line: DumpLine, ghost a: State, ghost d: DumpRow, ghost shown: bool, ghost was: DumpRow)
      returns (r: Status, ghost now: DumpRow)
      requires Valid() && Room(line.str, 2) && |line.str| <= 2 * MAX_LINE && name == a.name
      requires Progress(env, Character, Next(), a, d, shown, 2, Fields(), was, line.str)
      modifies line, this`name
      ensures Valid()
      ensures shown ==> r == if a.name != "" then (if |d.values| >= 3 then Done else Failed)
                             else if env.nameTaken(Cell(d, 3)) && |d.values| < 35 then Failed else Done
      ensures r == Done ==> Progress(env, Character, Next(), a, d, shown, 35, Fields(), now, line.str)
    {
      now := was;
      if name == "" {
        var own, stuck := ReadCell(line, 3, was);
        if stuck {
          return Stuck, was;
        }
        PassOwnName(env, Next(), a, d, shown, Fields(), was, line.str);
        name := own;
        PassData(env, Character, Next(), a, d, shown, 3, 34, Fields(), was, line.str);
        if env.nameTaken(name) {
          r, now := ChangeCell(line, 35, "1", Character, 1, a, d, shown, Fields(), was);
          return;
        }
        r := Done;
      } else {
        r, now := ChangeCell(line, 3, name, Character, 1, a, d, shown, Fields(), was);
        if r != Done {
          return;
        }
        PassData(env, Character, Next(), a, d, shown, 3, 34, Fields(), now, line.str);
      }
      PassLogin(env, Next(), a, d, shown, Fields(), now, line.str);
    }

    /** The change of a line to server values, by the type of its table. */
    method RewriteLine(t: TableType, line: DumpLine, ghost d: DumpRow, ghost shown: bool)
      returns (r: Status, ghost now: DumpRow)
      requires Valid() && |line.str| <= MAX_LINE && (shown ==> Shows(line.str, d))
      modifies line, this`name, this`items, this`mails, this`itemTexts, this`textCache
      modifies this`petids, this`newpetid, this`lastpetid, this`petsDrawn
      ensures Valid()
      ensures shown ==> Outcome(env, t, Next(), old(Fields()), d, Fields(), now, r, line.str)
    {
      match t
      case CharTable => r, now := LoadCharTable(line, d, shown);
      case Character => r, now := LoadCharacter(line, d, shown);
      case Inventory => r, now := LoadInventory(line, d, shown);
      case Item => r, now := LoadItem(line, d, shown);
      case ItemGift => r, now := LoadItemGift(line, d, shown);
      case ItemLoot => r, now := LoadItemLoot(line, d, shown);
      case Pet => r, now := LoadPet(line, d, shown);
      case PetTable => r, now := LoadPetTable(line, d, shown);
      case Mail => r, now := LoadMail(line, d, shown);
      case MailItem => r, now := LoadMailItem(line, d, shown);
      case ItemText => r, now := LoadItemText(line, d, shown);
    }

    /** A line that holds a row. */
    method LoadRowLine(text: string, accepts: string -> bool, ghost d: DumpRow)
      returns (r: Status, sent: string, ghost now: DumpRow)
      requires Valid() && |text| <= MAX_LINE
      modifies this`name, this`items, this`mails, this`itemTexts, this`textCache
      modifies this`petids, this`newpetid, this`lastpetid, this`petsDrawn
      ensures Valid()
      ensures Shows(text, d) ==> r != Stuck
      ensures Shows(text, d) && r == Done ==>
                LoadOne(env, Next(), Some(d), old(Fields())) == Some((Fields(), Some(now))) && Shows(sent, now)
      ensures Shows(text, d) && r == Failed && (forall s :: accepts(s)) ==>
                LoadOne(env, Next(), Some(d), old(Fields())) == None
    {
      sent, now := "", d;
      var line := new DumpLine(text);
      var tn := line.GetTableName();
      if Shows(text, d) {
        TableNameReadsBack(d.tn, d.values, d.tail);
      }
      if tn == "" {
        EmptyNameIsUnknown(0);
        return Failed, "", d;
      }
      var t := TypeFrom(tn, 0);
      if t == None {
        return Failed, "", d;
      }
      r, now := RewriteLine(t.value, line, d, Shows(text, d));
      sent := line.str;
      if r == Done && !accepts(sent) {
        r := Failed;
      }
    }

    /** One line of the dump: skipped, sent as it stands, or rewritten and sent. */
    method LoadLine(text: string, accepts: string -> bool, ghost row: Option<DumpRow>)
      returns (r: Status, sent: Option<string>, ghost now: Option<DumpRow>)
      requires Valid() && |text| <= MAX_LINE
      modifies this`name, this`items, this`mails, this`itemTexts, this`textCache
      modifies this`petids, this`newpetid, this`lastpetid, this`petsDrawn
      ensures Valid()
      ensures LineShown(text, row) ==> r != Stuck
      ensures LineShown(text, row) && r == Done ==>
                LoadOne(env, Next(), row, old(Fields())) == Some((Fields(), now)) && OneShown(sent, now)
      ensures LineShown(text, row) && r == Failed && (forall s :: accepts(s)) ==>
                LoadOne(env, Next(), row, old(Fields())) == None
    {
      if row.Some? && LineShown(text, row) {
        RowIsNoRemark(text, row.value);
      }
      var at := FirstOther(text, 0);
      if at == |text| || IsNote(Substr(text, at, 15)) {
        return Done, None, None;
      }
      if IsVersionCheck(Substr(text, at, 41)) {
        return if accepts(text) then Done else Failed, Some(text), None;
      }
      ghost var d := if row.Some? then row.value else DumpRow("", [], "");
      var line;
      ghost var loaded;
      r, line, loaded := LoadRowLine(text, accepts, d);
      sent, now := Some(line), Some(loaded);
    }

    method LoadNext(dump: seq<string>, i: nat, accepts: string -> bool, ghost rows: seq<Option<DumpRow>>,
                    ghost a: State,
                    ghost shown: bool, ghost nows: seq<Option<DumpRow>>, ghost sent: seq<Option<string>>)
      returns (r: Status, one: Option<string>, ghost now: Option<DumpRow>)
      requires Valid() && i < |dump| == |rows| && |dump[i]| <= MAX_LINE && (shown ==> AllShown(dump, rows))
      requires Loaded(env, Next(), rows, a, shown, i, Fields(), nows, sent)
      modifies this`name, this`items, this`mails, this`itemTexts, this`textCache
      modifies this`petids, this`newpetid, this`lastpetid, this`petsDrawn
      ensures Valid()
      ensures r == Done ==> Loaded(env, Next(), rows, a, shown, i + 1, Fields(), nows + [now], sent + [one])
      ensures shown ==> r != Stuck
      ensures shown && r == Failed && (forall s :: accepts(s)) ==> LoadRows(env, Next(), rows, |rows|, a) == None
    {
      ghost var st := Fields();
      assert shown ==> LineShown(dump[i], rows[i]);
      r, one, now := LoadLine(dump[i], accepts, rows[i]);
      if r == Done {
        LoadedNext(env, Next(), rows, a, shown, i, st, nows, sent, Fields(), now, one);
      } else {
        LoadedNoMore(env, Next(), rows, a, shown, i, st, nows, sent);
      }
    }

    /** The loop of LoadDump over all lines. */
    method LoadLines(dump: seq<string>, accepts: string -> bool, ghost rows: seq<Option<DumpRow>>, ghost shown: bool)
      returns (res: DumpReturn, sent: seq<Option<string>>, ghost nows: seq<Option<DumpRow>>)
      requires Valid() && |rows| == |dump| && (shown ==> AllShown(dump, rows))
      requires forall k :: 0 <= k < |dump| ==> |dump[k]| <= MAX_LINE
      modifies this`name, this`items, this`mails, this`itemTexts, this`textCache
      modifies this`petids, this`newpetid, this`lastpetid, this`petsDrawn
      ensures Valid()
      ensures shown ==> res != Hangs
      ensures res == Success ==>
                Loaded(env, Next(), rows, old(Fields()), shown, |rows|, Fields(), nows, sent)
      ensures shown && res == FileBroken && (forall s :: accepts(s)) ==>
                LoadRows(env, Next(), rows, |rows|, old(Fields())) == None
    {
      ghost var a := Fields();
      sent, nows := [], [];
      var i := 0;
      while i < |dump|
        invariant 0 <= i <= |dump| && Valid()
        invariant Loaded(env, Next(), rows, a, shown, i, Fields(), nows, sent)
      {
        ghost var now;
        var r, one;
        r, one, now := LoadNext(dump, i, accepts, rows, a, shown, nows, sent);
        if r == Stuck {
          return Hangs, sent, nows;
        }
        if r == Failed {
          return FileBroken, sent, nows;
        }
        sent, nows := sent + [one], nows + [now];
        i := i + 1;
      }
      res := Success;
    }

    /** Loads a whole dump. On success every line has been sent, and the generators are set past the new ids. */
    method LoadDump(dump: seq<string>, accepts: string -> bool, ghost rows: seq<Option<DumpRow>>)
      returns (res: DumpReturn, sent: seq<Option<string>>, ghost nows: seq<Option<DumpRow>>)
      requires Valid() && |rows| == |dump|
      requires forall k :: 0 <= k < |dump| ==> |dump[k]| <= MAX_LINE
      modifies this
      ensures AllShown(dump, rows) ==> res != Hangs
      ensures AllShown(dump, rows) && res == Success ==>
                && LoadRows(env, old(Next()), rows, |rows|, old(Fields())) == Some((Fields(), nows))
                && SentShown(sent, nows)
      ensures AllShown(dump, rows) && res == FileBroken && (forall s :: accepts(s)) ==>
                LoadRows(env, old(Next()), rows, |rows|, old(Fields())) == None
      ensures res == Success ==>
                nextItem == old(nextItem) + |items| && nextMail == old(nextMail) + |mails|
                && nextText == old(nextText) + |itemTexts|
    {
      res, sent, nows := LoadLines(dump, accepts, rows, AllShown(dump, rows));
      if res == Success {
        nextItem := nextItem + |items|;
        nextMail := nextMail + |mails|;
        nextText := nextText + |itemTexts|;
      }
    }
  }
}
