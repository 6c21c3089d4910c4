/** Loading a character dump: PlayerDumpReader::LoadDump of src/game/PlayerDump.cpp. Every line is one row;
    its ids are replaced by new ones in the text, column by column, as its table prescribes. */
module DumpLoad {
  import opened Basics
  import opened DumpIds
  import opened DumpText

  // ---------- tables and their columns ----------

  datatype TableType =
    Character | CharTable | Inventory | Mail | MailItem | Item | ItemGift | ItemLoot | Pet | PetTable | ItemText

  const TABLE_COUNT: nat := 22

  /** The k-th entry of dumpTables. */
  function DumpTable(k: nat): (string, TableType)
    requires k < TABLE_COUNT
  {
    match k
    case 0 => ("characters", Character)
    case 1 => ("character_action", CharTable)
    case 2 => ("character_aura", CharTable)
    case 3 => ("character_homebind", CharTable)
    case 4 => ("character_honor_cp", CharTable)
    case 5 => ("character_inventory", Inventory)
    case 6 => ("character_queststatus", CharTable)
    case 7 => ("character_pet", Pet)
    case 8 => ("character_reputation", CharTable)
    case 9 => ("character_skills", CharTable)
    case 10 => ("character_spell", CharTable)
    case 11 => ("character_spell_cooldown", CharTable)
    case 12 => ("character_ticket", CharTable)
    case 13 => ("mail", Mail)
    case 14 => ("mail_items", MailItem)
    case 15 => ("pet_aura", PetTable)
    case 16 => ("pet_spell", PetTable)
    case 17 => ("pet_spell_cooldown", PetTable)
    case 18 => ("character_gifts", ItemGift)
    case 19 => ("item_instance", Item)
    case 20 => ("item_loot", ItemLoot)
    case _ => ("item_text", ItemText)
  }

  /** The type of the first table of that name from the k-th on. */
  function TypeFrom(tn: string, k: nat): Option<TableType>
    requires k <= TABLE_COUNT
    decreases TABLE_COUNT - k
  {
    if k == TABLE_COUNT then None
    else if DumpTable(k).0 == tn then Some(DumpTable(k).1)
    else TypeFrom(tn, k + 1)
  }

  datatype Kind = Items | Mails | Texts

  /** What a column holds: plain data, an id that stands for the character, one that is looked up, ... */
  datatype Role =
    Data | Owner | Account | Name | AtLogin | Ref(kind: Kind, keepsZero: bool) | PetId | PetRef

  /** Columns count from 1. */
  function RoleOf(t: TableType, c: nat): Role {
    match t
    case CharTable => if c == 1 then Owner else Data
    case Character =>
      if c == 1 then Owner else if c == 2 then Account else if c == 3 then Name else if c == 35 then AtLogin else Data
    case Inventory =>
      if c == 1 then Owner else if c == 2 then Ref(Items, true) else if c == 4 then Ref(Items, false) else Data
    case Item =>
      if c == 1 then Ref(Items, false) else if c == 3 then Owner else if c == 13 then Ref(Texts, true) else Data
    case ItemGift => if c == 1 then Owner else if c == 2 then Ref(Items, false) else Data
    case ItemLoot => if c == 1 then Ref(Items, false) else if c == 2 then Owner else Data
    case Pet => if c == 1 then PetId else if c == 3 then Owner else Data
    case PetTable => if c == 1 then PetRef else Data
    case Mail =>
      if c == 1 then Ref(Mails, false) else if c == 6 then Owner else if c == 8 then Ref(Texts, false) else Data
    case MailItem =>
      if c == 1 then Ref(Mails, false) else if c == 2 then Ref(Items, false) else if c == 4 then Owner else Data
    case ItemText => if c == 1 then Ref(Texts, false) else Data
  }

  /** The columns the writer collects ids from, while it dumps the rows of a table. */
  function Collected(t: TableType): set<(nat, Kind)> {
    match t
    case Inventory => {(4, Items)}
    case Mail => {(1, Mails), (8, Texts)}
    case MailItem => {(2, Items)}
    case _ => {}
  }

  /** The columns by which it asks for the rows of a table, with the ids collected. */
  function AskedBy(t: TableType): set<(nat, Kind)> {
    match t
    case Item => {(1, Items)}
    case ItemGift => {(2, Items)}
    case ItemLoot => {(1, Items)}
    case MailItem => {(1, Mails)}
    case ItemText => {(1, Texts)}
    case _ => {}
  }

  /** Whatever ids the writer collects and asks by, the reader gives new ones of that kind in the same columns. */
  lemma WriterAndReaderAgree(t: TableType, c: nat, kind: Kind)
    requires (c, kind) in Collected(t) + AskedBy(t)
    ensures RoleOf(t, c) == Ref(kind, false)
  {
  }

  // ---------- rows and what becomes of them ----------

  datatype DumpRow = DumpRow(tn: string, values: seq<string>, tail: string)

  /** The line is this row, and the row's values are plain. */
  ghost predicate Shows(str: string, d: DumpRow) {
    IsRow(d.tn, d.values, d.tail) && AllPlain(d.values) && str == RowText(d.tn, d.values, d.tail)
  }

  function With(d: DumpRow, n: nat, v: string): DumpRow
    requires 0 < n <= |d.values|
  {
    d.(values := d.values[n - 1 := v])
  }

  const MAX_LINE: nat := 32000

  /** Room for k more values, none of them longer than two lines. */
  predicate Room(str: string, k: nat) {
    |str| + 2 * MAX_LINE * k < MAX_SIZE
  }

  /** A value the reader writes: a printed id, or a name. */
  predicate Short(v: string) {
    Plain(v) && |v| <= 2 * MAX_LINE
  }

  lemma ChangedGrows(str: string, n: nat, with: string, nonzero: bool, k: nat)
    requires Room(str, k + 1) && |with| <= 2 * MAX_LINE
    ensures Room(Changed(str, n, with, false, nonzero).1, k) && Fits(Changed(str, n, with, false, nonzero).1)
    ensures |Changed(str, n, with, false, nonzero).1| <= |str| + |with|
  {
  }

  lemma WithShows(str: string, d: DumpRow, n: nat, v: string)
    requires IsRow(d.tn, d.values, d.tail) && AllPlain(d.values) && 0 < n <= |d.values| && Plain(v) && Fits(str)
    requires str == RowText(d.tn, d.values[n - 1 := v], d.tail)
    ensures Shows(str, With(d, n, v))
  {
  }

  lemma NewValueIsPlain(v: string, with: string, nonzero: bool)
    requires Plain(v) && Plain(with)
    ensures Plain(NewValue(v, with, false, nonzero))
  {
  }

  lemma ChangedText(str: string, d: DumpRow, n: nat, with: string, nonzero: bool)
    requires Shows(str, d) && 0 < n <= |d.values|
    ensures Changed(str, n, with, false, nonzero)
         == (Done, RowText(d.tn, d.values[n - 1 := NewValue(d.values[n - 1], with, false, nonzero)], d.tail))
  {
    ChangePrintsChangedRow(d.tn, d.values, n - 1, with, false, nonzero, d.tail);
  }

  /** changenth seen on rows: it fails past the last column, and otherwise changes that one value. */
  lemma ChangeOnRow(str: string, d: DumpRow, n: nat, with: string, nonzero: bool)
    requires Shows(str, d) && Fits(Changed(str, n, with, false, nonzero).1) && Plain(with) && 0 < n <= |d.values|
    ensures Changed(str, n, with, false, nonzero).0 == Done
    ensures Shows(Changed(str, n, with, false, nonzero).1, With(d, n, NewValue(d.values[n - 1], with, false, nonzero)))
  {
    var v := NewValue(d.values[n - 1], with, false, nonzero);
    NewValueIsPlain(d.values[n - 1], with, nonzero);
    ChangedText(str, d, n, with, nonzero);
    WithShows(Changed(str, n, with, false, nonzero).1, d, n, v);
  }

  lemma ChangePastRow(str: string, d: DumpRow, n: nat, with: string, nonzero: bool)
    requires Shows(str, d) && n > |d.values|
    ensures Changed(str, n, with, false, nonzero) == (Failed, str)
  {
    NoValuePastTheEnd(d.tn, d.values, n, d.tail);
  }

  function Cell(d: DumpRow, n: nat): string
    requires n > 0
  {
    if n <= |d.values| then d.values[n - 1] else ""
  }

  /** getnth seen on rows. */
  lemma CellReads(str: string, d: DumpRow, n: nat)
    requires Shows(str, d) && 0 < n <= |d.values|
    ensures Reads(str, n, d.values[n - 1])
  {
    PlainValueReads(d.tn, d.values, n - 1, d.tail);
  }

  lemma NoCell(str: string, d: DumpRow, n: nat)
    requires Shows(str, d) && n > |d.values|
    ensures NthPlace(str, n) == Missing
  {
    NoValuePastTheEnd(d.tn, d.values, n, d.tail);
  }

  method ReadCell(line: DumpLine, n: nat, ghost d: DumpRow) returns (v: string, stuck: bool)
    requires n > 0 && Fits(line.str)
    ensures Shows(line.str, d) ==> !stuck && v == Cell(d, n)
    ensures Plain(v) && |v| <= |line.str|
  {
    v, stuck := line.GetNth(n);
    FoundIsPlain(line.str, n);
    if Shows(line.str, d) {
      if n <= |d.values| {
        CellReads(line.str, d, n);
      } else {
        NoCell(line.str, d, n);
      }
    }
  }

  function Rewritten(d: DumpRow, n: nat, with: string, nonzero: bool): DumpRow
    requires n > 0
  {
    if n <= |d.values| then With(d, n, NewValue(d.values[n - 1], with, false, nonzero)) else d
  }

  lemma ChangeShows(str: string, d: DumpRow, n: nat, with: string, nonzero: bool)
    requires Shows(str, d) && Fits(Changed(str, n, with, false, nonzero).1) && Plain(with) && n > 0
    ensures var (r, now) := Changed(str, n, with, false, nonzero);
            r == (if n <= |d.values| then Done else Failed) && Shows(now, Rewritten(d, n, with, nonzero))
  {
    if n <= |d.values| {
      ChangeOnRow(str, d, n, with, nonzero);
    } else {
      ChangePastRow(str, d, n, with, nonzero);
    }
  }

  /** One changenth of a line, and the row it shows then. */
  method WriteCell(line: DumpLine, n: nat, with: string, nonzero: bool, ghost k: nat, ghost d: DumpRow)
    returns (r: Status, ghost now: DumpRow)
    requires n > 0 && Short(with) && Room(line.str, k + 1)
    modifies line
    ensures Room(line.str, k) && |line.str| <= |old(line.str)| + |with|
    ensures Shows(old(line.str), d) ==> r == (if n <= |d.values| then Done else Failed) && Shows(line.str, now)
    ensures now == Rewritten(d, n, with, nonzero)
  {
    now := Rewritten(d, n, with, nonzero);
    ChangedGrows(line.str, n, with, nonzero, k);
    if Shows(line.str, d) {
      ChangeShows(line.str, d, n, with, nonzero);
    }
    r := line.ChangeNth(n, with, false, nonzero);
  }

  // ---------- the reader's state ----------

  /** What the reader is told from outside: the character's new guid and account, which names are taken,
      and the numbers that GeneratePetNumber hands out one after the other. */
  datatype Env = Env(guid: Id, account: Id, nameTaken: string -> bool, petNumber: nat -> Id)

  datatype State = State(name: string, items: IdMap, mails: IdMap, texts: IdMap,
                         petIds: IdMap, newPet: string, lastPet: string, petsDrawn: nat)

  function IdsOf(st: State, k: Kind): IdMap {
    match k
    case Items => st.items
    case Mails => st.mails
    case Texts => st.texts
  }

  /** Ids once given stay. */
  ghost predicate Grows(a: State, b: State) {
    Extends(a.items, b.items) && Extends(a.mails, b.mails) && Extends(a.texts, b.texts) && Extends(a.petIds, b.petIds)
  }

  function Clip(s: string): string {
    if |s| < 20 then s else s[..19]
  }

  // ---------- loading a row, column by column ----------

  /** A state with one more id of a kind. */
  function WithId(st: State, k: Kind, next: Kind -> nat, id: Id): State {
    match k
    case Items => st.(items := Registered(st.items, next(Items), id))
    case Mails => st.(mails := Registered(st.mails, next(Mails), id))
    case Texts => st.(texts := Registered(st.texts, next(Texts), id))
  }

  /** The state after a row of character_pet with this id: a new number for every id that differs from
      the row before, and a note of the first number an id got. */
  function PetStep(env: Env, st: State, id: string): State {
    var cur := Clip(id);
    var last := if st.lastPet == "" then cur else st.lastPet;
    var another := last != cur;
    var newPet := if another then PrintId(env.petNumber(st.petsDrawn)) else st.newPet;
    var petIds := if ReadId(cur) in st.petIds then st.petIds else st.petIds[ReadId(cur) := ReadId(newPet)];
    st.(newPet := newPet, lastPet := cur, petIds := petIds,
        petsDrawn := if another then st.petsDrawn + 1 else st.petsDrawn)
  }

  function RefStep(kind: Kind, keepsZero: bool, next: Kind -> nat, st: State, text: string): (State, string) {
    var id := ReadId(text);
    if keepsZero && id == 0 then (st, text)
    else
      var after := WithId(st, kind, next, id);
      (after, PrintId(IdsOf(after, kind)[id]))
  }

  /** One cell: the state after it and its new text. The row as it was and the name on entry to it decide
      on the flag for a forced renaming. */
  function CellStep(env: Env, role: Role, next: Kind -> nat, entryName: string, d: DumpRow, st: State, text: string)
    : (State, string)
  {
    match role
    case Data => (st, text)
    case Owner => (st, PrintId(env.guid))
    case Account => (st, PrintId(env.account))
    case Name => if st.name == "" then (st.(name := text), text) else (st, st.name)
    case AtLogin => (st, if entryName == "" && env.nameTaken(Cell(d, 3)) then "1" else text)
    case Ref(kind, keepsZero) => RefStep(kind, keepsZero, next, st, text)
    case PetId => var after := PetStep(env, st, text); (after, after.newPet)
    case PetRef =>
      var id := ReadId(Clip(text));
      if id in st.petIds then (st.(newPet := PrintId(st.petIds[id])), PrintId(st.petIds[id])) else (st, text)
  }

  /** The first c cells of a row. */
  function Steps(env: Env, t: TableType, next: Kind -> nat, st: State, d: DumpRow, c: nat): (r: (State, DumpRow))
    requires c <= |d.values|
    ensures r.1.tn == d.tn && r.1.tail == d.tail && |r.1.values| == |d.values|
  {
    if c == 0 then (st, d)
    else
      var (s, now) := Steps(env, t, next, st, d, c - 1);
      var (after, text) := CellStep(env, RoleOf(t, c), next, st.name, d, s, d.values[c - 1]);
      (after, With(now, c, text))
  }

  function RowStep(env: Env, t: TableType, next: Kind -> nat, st: State, d: DumpRow): (State, DumpRow) {
    Steps(env, t, next, st, d, |d.values|)
  }

  lemma {:induction false} LaterCellsUntouched(env: Env, t: TableType, next: Kind -> nat, st: State, d: DumpRow, c: nat)
    requires c <= |d.values|
    ensures forall k :: c <= k < |d.values| ==> Steps(env, t, next, st, d, c).1.values[k] == d.values[k]
  {
    if c > 0 {
      LaterCellsUntouched(env, t, next, st, d, c - 1);
    }
  }

  /** Plain data needs no step. */
  lemma {:induction false} DataSteps(env: Env, t: TableType, next: Kind -> nat, st: State, d: DumpRow, b: nat, c: nat)
    requires b <= c <= |d.values| && forall k :: b < k <= c ==> RoleOf(t, k) == Data
    ensures Steps(env, t, next, st, d, c) == Steps(env, t, next, st, d, b)
    decreases c
  {
    if b < c {
      DataSteps(env, t, next, st, d, b, c - 1);
      LaterCellsUntouched(env, t, next, st, d, c - 1);
      var now := Steps(env, t, next, st, d, c - 1).1;
      assert With(now, c, d.values[c - 1]) == now;
    }
  }

  /** The value a cell has after loading, given the id maps. */
  ghost predicate CellDone(env: Env, role: Role, before: string, now: string, st: State) {
    match role
    case Data => now == before
    case Owner => now == PrintId(env.guid)
    case Account => now == PrintId(env.account)
    case Name => true
    case AtLogin => true
    case Ref(kind, keepsZero) =>
      if keepsZero && ReadId(before) == 0 then now == before
      else NewIdShown(ReadId(before), now, IdsOf(st, kind))
    case PetId => ReadId(Clip(before)) in st.petIds
    case PetRef => NewIdShown(ReadId(Clip(before)), now, st.petIds)
  }

  ghost predicate NewIdShown(id: Id, now: string, m: IdMap) {
    id in m && now == PrintId(m[id])
  }

  ghost predicate CellsDone(env: Env, t: TableType, d: DumpRow, now: DumpRow, st: State) {
    && now.tn == d.tn && now.tail == d.tail && |now.values| == |d.values|
    && forall c: nat :: c < |d.values| ==> CellDone(env, RoleOf(t, c + 1), d.values[c], now.values[c], st)
  }

  lemma CellsStayDone(env: Env, t: TableType, d: DumpRow, now: DumpRow, a: State, b: State)
    requires CellsDone(env, t, d, now, a) && Grows(a, b)
    ensures CellsDone(env, t, d, now, b)
  {
    forall c: nat | c < |d.values|
      ensures CellDone(env, RoleOf(t, c + 1), d.values[c], now.values[c], b)
    {
      CellStaysDone(env, RoleOf(t, c + 1), d.values[c], now.values[c], a, b);
    }
  }

  lemma CellStaysDone(env: Env, role: Role, before: string, now: string, a: State, b: State)
    requires CellDone(env, role, before, now, a) && Grows(a, b)
    ensures CellDone(env, role, before, now, b)
  {
  }

  /** Whether the row has the columns its table prescribes, and its pet is known. A missing column that
      keeps its zero is read as zero and does no harm. */
  ghost predicate Complete(env: Env, t: TableType, st: State, d: DumpRow) {
    var n := |d.values|;
    match t
    case CharTable => n >= 1
    case Character =>
      if st.name != "" then n >= 3 else n >= 2 && (env.nameTaken(Cell(d, 3)) ==> n >= 35)
    case Inventory => n >= 4
    case Item => n >= 3
    case ItemGift => n >= 2
    case ItemLoot => n >= 2
    case Pet => n >= 3
    case PetTable => n >= 1 && ReadId(Clip(Cell(d, 1))) in st.petIds
    case Mail => n >= 8
    case MailItem => n >= 4
    case ItemText => n >= 1
  }

  /** The ids of one kind after at most n more were met: a bijection stays one, short of overflow. */
  ghost predicate Kept(a: IdMap, b: IdMap, hi: nat, n: nat) {
    && Extends(a, b) && |b| <= |a| + n
    && (Bijection(a, hi) && hi + |a| + n <= UINT32 ==> Bijection(b, hi))
  }

  lemma KeptAgain(a: IdMap, b: IdMap, c: IdMap, hi: nat, m: nat, k: nat, n: nat)
    requires Kept(a, b, hi, m) && Kept(b, c, hi, k) && n == m + k
    ensures Kept(a, c, hi, n)
  {
  }

  lemma RegisteredKept(m: IdMap, hi: nat, id: Id)
    ensures Kept(m, Registered(m, hi, id), hi, 1)
  {
    if Bijection(m, hi) && hi + |m| < UINT32 {
      RegisteringKeepsBijection(m, hi, id);
    }
  }

  /** What a step may do to the state: nothing but add ids. */
  ghost predicate AllKept(a: State, b: State, next: Kind -> nat, n: nat) {
    && Kept(a.items, b.items, next(Items), n)
    && Kept(a.mails, b.mails, next(Mails), n)
    && Kept(a.texts, b.texts, next(Texts), n)
    && Extends(a.petIds, b.petIds)
  }

  lemma AllKeptAgain(a: State, b: State, c: State, next: Kind -> nat, m: nat, k: nat, n: nat)
    requires AllKept(a, b, next, m) && AllKept(b, c, next, k) && n == m + k
    ensures AllKept(a, c, next, n)
  {
    KeptAgain(a.items, b.items, c.items, next(Items), m, k, n);
    KeptAgain(a.mails, b.mails, c.mails, next(Mails), m, k, n);
    KeptAgain(a.texts, b.texts, c.texts, next(Texts), m, k, n);
  }

  lemma WithIdKept(st: State, k: Kind, next: Kind -> nat, id: Id)
    ensures AllKept(st, WithId(st, k, next, id), next, 1)
    ensures id in IdsOf(WithId(st, k, next, id), k)
  {
    match k
    case Items => RegisteredKept(st.items, next(Items), id);
    case Mails => RegisteredKept(st.mails, next(Mails), id);
    case Texts => RegisteredKept(st.texts, next(Texts), id);
  }

  lemma SameKept(a: State, b: State, next: Kind -> nat)
    requires a.items == b.items && a.mails == b.mails && a.texts == b.texts && Extends(a.petIds, b.petIds)
    ensures AllKept(a, b, next, 1)
  {
  }

  lemma KeptGrows(a: State, b: State, next: Kind -> nat, n: nat)
    requires AllKept(a, b, next, n)
    ensures Grows(a, b)
  {
  }

  lemma CellStepKeeps(env: Env, role: Role, next: Kind -> nat, entryName: string, d: DumpRow, st: State, text: string)
    ensures AllKept(st, CellStep(env, role, next, entryName, d, st, text).0, next, 1)
  {
    if role.Ref? && !(role.keepsZero && ReadId(text) == 0) {
      WithIdKept(st, role.kind, next, ReadId(text));
    } else {
      SameKept(st, CellStep(env, role, next, entryName, d, st, text).0, next);
    }
  }

  lemma CellStepDone(env: Env, role: Role, next: Kind -> nat, entryName: string, d: DumpRow, st: State, text: string)
    requires role == PetRef ==> ReadId(Clip(text)) in st.petIds
    ensures var (after, now) := CellStep(env, role, next, entryName, d, st, text);
            CellDone(env, role, text, now, after)
  {
    if role.Ref? && !(role.keepsZero && ReadId(text) == 0) {
      WithIdKept(st, role.kind, next, ReadId(text));
    }
  }

  /** Every pet a row refers to is known. */
  ghost predicate PetsKnown(t: TableType, st: State, d: DumpRow) {
    forall k: nat :: k < |d.values| && RoleOf(t, k + 1) == PetRef ==> ReadId(Clip(d.values[k])) in st.petIds
  }

  ghost predicate CellsDoneTo(env: Env, t: TableType, d: DumpRow, now: DumpRow, st: State, c: nat) {
    && |now.values| == |d.values|
    && forall k: nat :: k < c && k < |d.values| ==> CellDone(env, RoleOf(t, k + 1), d.values[k], now.values[k], st)
  }

  lemma OneMoreCell(env: Env, t: TableType, d: DumpRow, was: DumpRow, a: State, b: State, c: nat, text: string)
    requires CellsDoneTo(env, t, d, was, a, c) && Grows(a, b) && c < |d.values|
    requires CellDone(env, RoleOf(t, c + 1), d.values[c], text, b)
    ensures CellsDoneTo(env, t, d, With(was, c + 1, text), b, c + 1)
  {
    forall k: nat | k < c
      ensures CellDone(env, RoleOf(t, k + 1), d.values[k], was.values[k], b)
    {
      CellStaysDone(env, RoleOf(t, k + 1), d.values[k], was.values[k], a, b);
    }
  }

  lemma NothingKept(st: State, next: Kind -> nat)
    ensures AllKept(st, st, next, 0)
  {
  }

  lemma OneMoreStep(env: Env, t: TableType, next: Kind -> nat, entryName: string, d: DumpRow, c: nat, s: State,
                    was: DumpRow)
    requires c < |d.values| && PetsKnown(t, s, d) && CellsDoneTo(env, t, d, was, s, c)
    ensures var (after, text) := CellStep(env, RoleOf(t, c + 1), next, entryName, d, s, d.values[c]);
            CellsDoneTo(env, t, d, With(was, c + 1, text), after, c + 1)
  {
    var (after, text) := CellStep(env, RoleOf(t, c + 1), next, entryName, d, s, d.values[c]);
    CellStepDone(env, RoleOf(t, c + 1), next, entryName, d, s, d.values[c]);
    CellStepKeeps(env, RoleOf(t, c + 1), next, entryName, d, s, d.values[c]);
    KeptGrows(s, after, next, 1);
    OneMoreCell(env, t, d, was, s, after, c, text);
  }

  lemma PetsStayKnown(t: TableType, a: State, b: State, d: DumpRow, next: Kind -> nat, n: nat)
    requires PetsKnown(t, a, d) && AllKept(a, b, next, n)
    ensures PetsKnown(t, b, d)
  {
  }

  /** With n cells loaded: all ids kept, and the cells done. */
  ghost predicate PartDone(env: Env, t: TableType, next: Kind -> nat, st: State, d: DumpRow, s: State, w: DumpRow,
                           n: nat)
  {
    |w.values| == |d.values| && AllKept(st, s, next, n) && CellsDoneTo(env, t, d, w, s, n)
  }

  ghost function PartDoneRelation(env: Env, t: TableType, next: Kind -> nat, st: State, d: DumpRow)
    : (State, DumpRow, nat) -> bool
  {
    (s: State, w: DumpRow, n: nat) => PartDone(env, t, next, st, d, s, w, n)
  }

  lemma PartDoneStep(env: Env, t: TableType, next: Kind -> nat, st: State, d: DumpRow, s: State, w: DumpRow, n: nat)
    requires n < |d.values| && PetsKnown(t, st, d) && PartDone(env, t, next, st, d, s, w, n)
    ensures var (after, text) := CellStep(env, RoleOf(t, n + 1), next, st.name, d, s, d.values[n]);
            PartDone(env, t, next, st, d, after, With(w, n + 1, text), n + 1)
  {
    var (after, text) := CellStep(env, RoleOf(t, n + 1), next, st.name, d, s, d.values[n]);
    CellStepKeeps(env, RoleOf(t, n + 1), next, st.name, d, s, d.values[n]);
    AllKeptAgain(st, s, after, next, n, 1, n + 1);
    PetsStayKnown(t, st, s, d, next, n);
    OneMoreStep(env, t, next, st.name, d, n, s, w);
  }

  /** Whatever holds before the first cell and survives each cell holds after the last. */
  lemma {:induction false} StepsKeep(env: Env, t: TableType, next: Kind -> nat, st: State, d: DumpRow, c: nat,
                                     inv: (State, DumpRow, nat) -> bool)
    requires c <= |d.values| && inv(st, d, 0)
    requires forall s, w, n: nat :: inv(s, w, n) && n < |d.values| ==>
               InvAfter(env, t, next, st, d, s, w, n, inv)
    ensures inv(Steps(env, t, next, st, d, c).0, Steps(env, t, next, st, d, c).1, c)
  {
    if c > 0 {
      StepsKeep(env, t, next, st, d, c - 1, inv);
      var (s, was) := Steps(env, t, next, st, d, c - 1);
      assert InvAfter(env, t, next, st, d, s, was, c - 1, inv);
    }
  }

  ghost predicate InvAfter(env: Env, t: TableType, next: Kind -> nat, st: State, d: DumpRow,
                           s: State, w: DumpRow, n: nat, inv: (State, DumpRow, nat) -> bool)
    requires n < |d.values|
  {
    |w.values| == |d.values| &&
    var (after, text) := CellStep(env, RoleOf(t, n + 1), next, st.name, d, s, d.values[n]);
    inv(after, With(w, n + 1, text), n + 1)
  }

  /** Loading a row leaves every cell as its role demands, keeps all ids and adds one a cell at most. */
  lemma RowStepDone(env: Env, t: TableType, next: Kind -> nat, st: State, d: DumpRow)
    requires PetsKnown(t, st, d)
    ensures var (after, now) := RowStep(env, t, next, st, d);
            AllKept(st, after, next, |d.values|) && CellsDone(env, t, d, now, after)
  {
    var inv := PartDoneRelation(env, t, next, st, d);
    NothingKept(st, next);
    assert inv(st, d, 0);
    forall s, w, n: nat | inv(s, w, n) && n < |d.values|
      ensures InvAfter(env, t, next, st, d, s, w, n, inv)
    {
      PartDoneStep(env, t, next, st, d, s, w, n);
    }
    StepsKeep(env, t, next, st, d, |d.values|, inv);
    var (after, now) := RowStep(env, t, next, st, d);
    assert PartDone(env, t, next, st, d, after, now, |d.values|);
  }

  // ---------- references ----------

  /** The id a cell stands for after loading; 0 stays 0 where the column keeps it. */
  lemma NewIdOf(env: Env, kind: Kind, keepsZero: bool, before: string, now: string, st: State)
    requires CellDone(env, Ref(kind, keepsZero), before, now, st)
    ensures keepsZero && ReadId(before) == 0 ==> ReadId(now) == 0
    ensures !(keepsZero && ReadId(before) == 0) ==>
              ReadId(before) in IdsOf(st, kind) && ReadId(now) == IdsOf(st, kind)[ReadId(before)]
  {
    if !(keepsZero && ReadId(before) == 0) {
      PrintedIdReads(IdsOf(st, kind)[ReadId(before)]);
    }
  }

  /** Two loaded references agree exactly when the dumped ones did, unless both are 0 and only one of
      their columns keeps its zero. */
  lemma ReferencesPreserved(env: Env, kind: Kind, next: nat, st: State,
                            keepsA: bool, a: string, nowA: string, keepsB: bool, b: string, nowB: string)
    requires Bijection(IdsOf(st, kind), next) && next > 0
    requires CellDone(env, Ref(kind, keepsA), a, nowA, st) && CellDone(env, Ref(kind, keepsB), b, nowB, st)
    ensures (ReadId(nowA) == ReadId(nowB) <==> ReadId(a) == ReadId(b))
            <==> !(ReadId(a) == 0 && ReadId(b) == 0 && keepsA != keepsB)
  {
    NewIdOf(env, kind, keepsA, a, nowA, st);
    NewIdOf(env, kind, keepsB, b, nowB, st);
  }

  /** Every new id is free: at or above the next free id, below the value the generator is set to. */
  lemma NewIdsAreFree(env: Env, kind: Kind, keepsZero: bool, next: nat, before: string, now: string, st: State)
    requires Bijection(IdsOf(st, kind), next) && CellDone(env, Ref(kind, keepsZero), before, now, st)
    requires !(keepsZero && ReadId(before) == 0)
    ensures next <= ReadId(now) < next + |IdsOf(st, kind)|
  {
    NewIdOf(env, kind, keepsZero, before, now, st);
  }

  /** A mail without a text refers to text 0, and is loaded referring to some other, new text. */
  lemma MailsGainTexts(env: Env, next: nat, st: State, d: DumpRow, now: DumpRow)
    requires CellsDone(env, Mail, d, now, st) && |d.values| >= 8 && ReadId(d.values[7]) == 0
    requires Bijection(st.texts, next) && next > 0
    ensures ReadId(now.values[7]) >= next
  {
    assert CellDone(env, RoleOf(Mail, 7 + 1), d.values[7], now.values[7], st);
    NewIdsAreFree(env, Texts, false, next, d.values[7], now.values[7], st);
  }

  // ---------- pets ----------

  /** The number is one of the first n handed out. */
  ghost predicate Drawn(env: Env, number: Id, n: nat) {
    exists i: nat :: i < n && env.petNumber(i) == number
  }

  /** Different pets have different numbers, all of them drawn. */
  ghost predicate PetsDistinct(env: Env, st: State) {
    && (forall k :: k in st.petIds ==> Drawn(env, st.petIds[k], st.petsDrawn))
    && (forall j, k :: j in st.petIds && k in st.petIds && st.petIds[j] == st.petIds[k] ==> j == k)
  }

  /** Before the first pet a number waits; from then on the last pet is on record. */
  ghost predicate PetsInStep(env: Env, st: State) {
    if st.lastPet == "" then st.petIds == map[] && st.newPet == PrintId(env.petNumber(0)) && st.petsDrawn == 1
    else ReadId(st.lastPet) in st.petIds
  }

  /** The first n numbers handed out differ. */
  ghost predicate NumbersDistinct(env: Env, n: nat) {
    forall i: nat, j: nat :: i < j < n ==> env.petNumber(i) != env.petNumber(j)
  }

  /** A generator that counts up from first. */
  function Counting(env: Env, first: Id): Env {
    env.(petNumber := (i: nat) => Wrapped32(first + i))
  }

  /** Short of overflow such a generator hands out different numbers. */
  lemma CountingNumbersDiffer(env: Env, first: Id, n: nat)
    requires first + n <= UINT32
    ensures NumbersDistinct(Counting(env, first), n)
  {
    forall i: nat, j: nat | i < j < n
      ensures Counting(env, first).petNumber(i) != Counting(env, first).petNumber(j)
    {
      assert Wrapped32(first + i) == first + i && Wrapped32(first + j) == first + j;
    }
  }

  /** A pet met for the first time is noted under the number its row shows, a number no other pet has. */
  lemma NewPetIsNoted(env: Env, st: State, id: string)
    requires NumbersDistinct(env, PetStep(env, st, id).petsDrawn) && PetsDistinct(env, st) && PetsInStep(env, st)
    requires id != "" && ReadId(Clip(id)) !in st.petIds
    ensures var after := PetStep(env, st, id);
            PetsDistinct(env, after) && PetsInStep(env, after)
            && ReadId(Clip(id)) in after.petIds && after.petIds[ReadId(Clip(id))] == ReadId(after.newPet)
  {
    var i := if st.lastPet == "" then 0 else st.petsDrawn;
    var number := env.petNumber(i);
    PrintedIdReads(number);
    var after := PetStep(env, st, id);
    assert after.newPet == PrintId(number);
    assert Drawn(env, number, after.petsDrawn);
    forall k | k in st.petIds
      ensures Drawn(env, st.petIds[k], after.petsDrawn) && st.petIds[k] != number
    {
      var j: nat :| j < st.petsDrawn && env.petNumber(j) == st.petIds[k];
      assert env.petNumber(j) != env.petNumber(i);
    }
  }

  /** A pet met again stays noted under its first number. Its row shows a new number, which no pet is noted
      under, unless the pet row before shows the same id: then it shows the number written last. */
  lemma PetMetAgain(env: Env, st: State, id: string)
    requires NumbersDistinct(env, PetStep(env, st, id).petsDrawn) && PetsDistinct(env, st) && PetsInStep(env, st)
    requires id != "" && ReadId(Clip(id)) in st.petIds
    ensures var after := PetStep(env, st, id);
            && after.petIds == st.petIds && PetsDistinct(env, after) && PetsInStep(env, after)
            && if st.lastPet == Clip(id) then after.newPet == st.newPet
               else forall k :: k in st.petIds ==> st.petIds[k] != ReadId(after.newPet)
  {
    var after := PetStep(env, st, id);
    forall k | k in st.petIds
      ensures Drawn(env, st.petIds[k], after.petsDrawn)
      ensures st.lastPet != Clip(id) ==> st.petIds[k] != ReadId(after.newPet)
    {
      var j: nat :| j < st.petsDrawn && env.petNumber(j) == st.petIds[k];
      if st.lastPet != Clip(id) {
        PrintedIdReads(env.petNumber(st.petsDrawn));
        assert env.petNumber(j) != env.petNumber(st.petsDrawn);
      }
    }
  }
}
