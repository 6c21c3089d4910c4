/** Which rows a dump takes in: PlayerDumpWriter::GenerateWhereStr and the loop over its batches in
    DumpTableContent, src/game/PlayerDump.cpp. The ids go into as few queries as fit the query length. */
module DumpQuery {
  import opened Basics
  import opened DumpIds

  const MAX_QUERY_LEN: nat := 32 * 1024

  /** Ids between quotes and commas. */
  function Listed(ids: seq<Id>): string {
    if ids == [] then ""
    else if |ids| == 1 then Decimal(ids[0])
    else Listed(ids[..|ids| - 1]) + "','" + Decimal(ids[|ids| - 1])
  }

  function WhereText(field: string, ids: seq<Id>): string {
    field + " IN ('" + Listed(ids) + "')"
  }

  function Comma(ids: seq<Id>): string {
    if ids == [] then "" else "','"
  }

  lemma ListedNext(ids: seq<Id>, id: Id)
    ensures Listed(ids + [id]) == Listed(ids) + Comma(ids) + Decimal(id)
  {
    assert (ids + [id])[..|ids|] == ids;
    if ids == [] {
      assert "" + "" + Decimal(id) == Decimal(id);
    }
  }

  lemma IdIsShort(id: Id)
    ensures |Decimal(id)| <= 10
  {
    assert Power10(10) == 10_000_000_000;
    DecimalIsShort(id, 10, 10_000_000_000);
  }

  /** The length of the condition so far, without its end. */
  function LengthSoFar(field: string, ids: seq<Id>): nat {
    |field| + 6 + |Listed(ids)|
  }

  predicate NearLimit(field: string, ids: seq<Id>) {
    LengthSoFar(field, ids) > MAX_QUERY_LEN - 50
  }

  lemma {:induction false} FewerIdsAreShorter(ids: seq<Id>, k: nat)
    requires k <= |ids|
    ensures |Listed(ids[..k])| <= |Listed(ids)|
  {
    if k < |ids| {
      FewerIdsAreShorter(ids[..|ids| - 1], k);
      assert ids[..|ids| - 1][..k] == ids[..k];
    } else {
      assert ids[..k] == ids;
    }
  }

  lemma SliceNext(guids: seq<Id>, itr: nat, next: nat)
    requires itr <= next < |guids|
    ensures guids[itr..next] + [guids[next]] == guids[itr..next + 1]
  {
  }

  // ---------- one batch ----------

  /** A batch ends with the first id that brings the text near the limit, or with the last. */
  function BatchEnd(field: string, guids: seq<Id>, itr: nat, next: nat): (end: nat)
    requires itr <= next < |guids|
    ensures next < end <= |guids|
    ensures end < |guids| ==> NearLimit(field, guids[itr..end])
    ensures forall k :: next < k < end ==> !NearLimit(field, guids[itr..k])
    decreases |guids| - next
  {
    if next + 1 == |guids| || NearLimit(field, guids[itr..next + 1]) then next + 1
    else BatchEnd(field, guids, itr, next + 1)
  }

  function Batch(field: string, guids: seq<Id>, itr: nat): seq<Id>
    requires itr < |guids|
  {
    guids[itr..BatchEnd(field, guids, itr, itr)]
  }

  /** One more id in the text. */
  method AppendId(text: string, head: string, ghost ids: seq<Id>, id: Id) returns (now: string)
    requires text == head + Listed(ids) + Comma(ids)
    ensures now == head + Listed(ids + [id])
  {
    ListedNext(ids, id);
    Associate(head, Listed(ids), Comma(ids));
    Associate(head, Listed(ids) + Comma(ids), Decimal(id));
    now := text + Decimal(id);
  }

  /** The condition for the ids from itr on, as many of them as the length allows. */
  method GenerateWhereStr(field: string, guids: seq<Id>, itr: nat) returns (where_: string, next: nat)
    requires itr < |guids|
    ensures next == BatchEnd(field, guids, itr, itr) && where_ == WhereText(field, guids[itr..next])
  {
    var head := field + " IN ('";
    where_ := head;
    next := itr;
    while true
      invariant itr <= next < |guids| && BatchEnd(field, guids, itr, next) == BatchEnd(field, guids, itr, itr)
      invariant where_ == head + Listed(guids[itr..next]) + Comma(guids[itr..next])
      decreases |guids| - next
    {
      where_ := AppendId(where_, head, guids[itr..next], guids[next]);
      SliceNext(guids, itr, next);
      next := next + 1;
      if |where_| > MAX_QUERY_LEN - 50 || next == |guids| {
        break;
      }
      where_ := where_ + "','";
    }
    where_ := where_ + "')";
  }

  // ---------- does the query fit ----------

  /** The query a condition is put into. */
  function QueryText(table: string, where_: string): string {
    "SELECT * FROM " + table + " WHERE " + where_
  }

  /** The query for the batch from itr on fits the buffer that queries are printed into. */
  predicate QueryFits(table: string, field: string, guids: seq<Id>, itr: nat)
    requires itr < |guids|
  {
    |QueryText(table, WhereText(field, Batch(field, guids, itr)))| < MAX_QUERY_LEN
  }

  lemma BatchIsShort(field: string, guids: seq<Id>, itr: nat)
    requires itr < |guids| && |field| < MAX_QUERY_LEN - 100
    ensures |WhereText(field, Batch(field, guids, itr))| <= MAX_QUERY_LEN - 35
  {
    var end := BatchEnd(field, guids, itr, itr);
    SliceNext(guids, itr, end - 1);
    ListedNext(guids[itr..end - 1], guids[end - 1]);
    IdIsShort(guids[end - 1]);
  }

  predicate Increasing(ids: seq<Id>) {
    forall i, j :: 0 <= i < j < |ids| ==> ids[i] < ids[j]
  }

  lemma {:induction false} DecimalLength(n: nat, k: nat)
    requires k > 0 && Power10(k - 1) <= n < Power10(k)
    ensures |Decimal(n)| == k
    decreases k
  {
    if k > 1 {
      DecimalLength(n / 10, k - 1);
    }
  }

  /** n ids of ten digits after the given ones. */
  function LongIds(head: seq<Id>, n: nat): seq<Id>
    requires n < 10000
  {
    head + seq(n, i requires 0 <= i < n => 1_000_000_001 + i)
  }

  lemma TenDigits(id: Id)
    requires id >= 1_000_000_000
    ensures |Decimal(id)| == 10
  {
    PowersOfTen();
    DecimalLength(id, 10);
  }

  lemma ListedGrows(ids: seq<Id>, id: Id)
    ensures |Listed(ids + [id])| == |Listed(ids)| + (if ids == [] then 0 else 3) + |Decimal(id)|
  {
    ListedNext(ids, id);
  }

  /** Ten digits and what stands between them. */
  lemma {:induction false} LongListed(ids: seq<Id>, h: nat, k: nat)
    requires 0 < h <= k <= |ids| && forall i :: h <= i < |ids| ==> ids[i] >= 1_000_000_000
    ensures |Listed(ids[..k])| == |Listed(ids[..h])| + 13 * (k - h)
    decreases k
  {
    if h < k {
      LongListed(ids, h, k - 1);
      TenDigits(ids[k - 1]);
      ListedGrows(ids[..k - 1], ids[k - 1]);
      assert ids[..k] == ids[..k - 1] + [ids[k - 1]];
    }
  }

  lemma LongIdsShape(head: seq<Id>, n: nat)
    requires n < 10000 && head != [] && Increasing(head) && head[|head| - 1] <= 1_000_000_000
    ensures |LongIds(head, n)| == |head| + n && |Listed(LongIds(head, n))| == |Listed(head)| + 13 * n
    ensures Increasing(LongIds(head, n))
    ensures n > 0 ==> LongIds(head, n)[..|head| + n - 1] == LongIds(head, n - 1)
  {
    var ids := LongIds(head, n);
    LongListed(ids, |head|, |ids|);
    assert ids[..|head|] == head && ids[..|ids|] == ids;
  }

  /** One id or two whose listed length is r, or 13 for r = 0. */
  function Head(r: nat): seq<Id>
    requires r < 13
  {
    match r
    case 0 => [10_000, 20_000]
    case 1 => [1]
    case 2 => [10]
    case 3 => [100]
    case 4 => [1_000]
    case 5 => [10_000]
    case 6 => [100_000]
    case 7 => [1_000_000]
    case 8 => [10_000_000]
    case 9 => [100_000_000]
    case 10 => [1_000_000_000]
    case 11 => [1_000, 2_000]
    case _ => [1_000, 20_000]
  }

  lemma PowersOfTen()
    ensures Power10(0) == 1 && Power10(1) == 10 && Power10(2) == 100 && Power10(3) == 1_000 && Power10(4) == 10_000
    ensures Power10(5) == 100_000 && Power10(6) == 1_000_000 && Power10(7) == 10_000_000
    ensures Power10(8) == 100_000_000 && Power10(9) == 1_000_000_000 && Power10(10) == 10_000_000_000
  {
    assert Power10(5) == 100_000;
    assert Power10(10) == 10_000_000_000;
  }

  lemma OneLength(a: Id, j: nat)
    requires j > 0 && Power10(j - 1) <= a < Power10(j)
    ensures |Listed([a])| == j
  {
    DecimalLength(a, j);
  }

  lemma TwoLength(a: Id, j: nat, b: Id, k: nat)
    requires j > 0 && Power10(j - 1) <= a < Power10(j) && k > 0 && Power10(k - 1) <= b < Power10(k)
    ensures |Listed([a, b])| == j + 3 + k
  {
    OneLength(a, j);
    DecimalLength(b, k);
    ListedGrows([a], b);
    assert [a] + [b] == [a, b];
  }

  lemma HeadLength(r: nat)
    requires r < 13
    ensures Head(r) != [] && Increasing(Head(r)) && Head(r)[|Head(r)| - 1] <= 1_000_000_000
    ensures |Listed(Head(r))| == if r == 0 then 13 else r
  {
    PowersOfTen();
    if r == 0 {
      TwoLength(10_000, 5, 20_000, 5);
    } else if r == 11 {
      TwoLength(1_000, 4, 2_000, 4);
    } else if r == 12 {
      TwoLength(1_000, 4, 20_000, 5);
    } else {
      var a := Head(r)[0];
      OneLength(a, r);
      assert Head(r) == [a];
    }
  }

  lemma BatchEndsAt(field: string, guids: seq<Id>, end: nat)
    requires 0 < end <= |guids| && !NearLimit(field, guids[..end - 1])
    requires end < |guids| ==> NearLimit(field, guids[..end])
    ensures BatchEnd(field, guids, 0, 0) == end && Batch(field, guids, 0) == guids[..end]
  {
    forall k | 0 < k < end
      ensures !NearLimit(field, guids[0..k])
    {
      FewerIdsAreShorter(guids[..end - 1], k);
      assert guids[..end - 1][..k] == guids[0..k];
    }
    assert guids[0..end] == guids[..end];
  }

  lemma LastIdEndsBatch(field: string, guids: seq<Id>)
    requires guids != [] && !NearLimit(field, guids[..|guids| - 1])
    ensures Batch(field, guids, 0) == guids
  {
    BatchEndsAt(field, guids, |guids|);
    assert guids[..|guids|] == guids;
  }

  /** Ids that bring the text exactly to the margin. */
  lemma FullIds(room: nat) returns (head: seq<Id>, n: nat)
    requires 50 <= room < MAX_QUERY_LEN
    ensures n < 9999 && head != [] && Increasing(head) && head[|head| - 1] <= 1_000_000_000
    ensures |Listed(head)| + 13 * n == room
  {
    var q, r := room / 13, room % 13;
    assert room == 13 * q + r;
    HeadLength(r);
    head, n := Head(r), if r == 0 then q - 1 else q;
  }

  lemma WhereLength(field: string, ids: seq<Id>)
    ensures |WhereText(field, ids)| == LengthSoFar(field, ids) + 2
  {
  }

  /** A batch that comes to the margin and then takes one more id of ten digits. */
  lemma LongestBatch(field: string) returns (guids: seq<Id>)
    requires |field| < MAX_QUERY_LEN - 106
    ensures guids != [] && Increasing(guids) && Batch(field, guids, 0) == guids
    ensures |WhereText(field, guids)| == MAX_QUERY_LEN - 35
  {
    var head, n := FullIds(MAX_QUERY_LEN - 50 - 6 - |field|);
    LongIdsShape(head, n);
    LongIdsShape(head, n + 1);
    guids := LongIds(head, n + 1);
    assert guids[..|guids| - 1] == LongIds(head, n);
    LastIdEndsBatch(field, guids);
    WhereLength(field, guids);
  }

  /** The margin of 50 is enough exactly for tables with names of up to 13 characters: for every longer
      name some set of ids makes a query that does not fit, whatever the field is called. */
  lemma ShortTablesFit(table: string, field: string)
    requires |field| < MAX_QUERY_LEN - 106
    ensures (forall guids: seq<Id>, itr: nat ::
               itr < |guids| && Increasing(guids) ==> QueryFits(table, field, guids, itr))
            <==> |table| <= 13
    ensures |table| <= 13 ==> forall guids: seq<Id>, itr: nat :: itr < |guids| ==> QueryFits(table, field, guids, itr)
  {
    if |table| <= 13 {
      forall guids: seq<Id>, itr: nat | itr < |guids|
        ensures QueryFits(table, field, guids, itr)
      {
        BatchIsShort(field, guids, itr);
      }
    } else {
      var guids := LongestBatch(field);
      assert !QueryFits(table, field, guids, 0);
    }
  }

  lemma GiftIds(n: nat)
    requires n < 10000
    ensures |LongIds([10_000_000], n)| == n + 1 && |Listed(LongIds([10_000_000], n))| == 8 + 13 * n
    ensures Increasing(LongIds([10_000_000], n))
  {
    assert Head(8) == [10_000_000];
    HeadLength(8);
    LongIdsShape([10_000_000], n);
  }

  /** 2517 item guids whose query against character_gifts is longer than the buffer. */
  lemma MarginIsTooSmall()
    ensures var ids := LongIds([10_000_000], 2516);
            |ids| == 2517 && Increasing(ids) && Batch("item_guid", ids, 0) == ids
            && |QueryText("character_gifts", WhereText("item_guid", ids))| > MAX_QUERY_LEN
  {
    GiftIds(2515);
    GiftIds(2516);
    var ids := LongIds([10_000_000], 2516);
    assert ids[..|ids| - 1] == LongIds([10_000_000], 2515);
    LastIdEndsBatch("item_guid", ids);
  }

  // ---------- all batches of a table ----------

  function Batches(field: string, guids: seq<Id>, itr: nat): seq<seq<Id>>
    requires itr <= |guids|
    decreases |guids| - itr
  {
    if itr == |guids| then []
    else [Batch(field, guids, itr)] + Batches(field, guids, BatchEnd(field, guids, itr, itr))
  }

  function Flatten(batches: seq<seq<Id>>): seq<Id> {
    if batches == [] then [] else batches[0] + Flatten(batches[1..])
  }

  /** A query is answered if the table has a row for one of its ids. */
  predicate Answered(batch: seq<Id>, hasRow: Id -> bool) {
    exists id <- batch :: hasRow(id)
  }

  /** The batches that are queried: up to the first one without an answer. */
  function Queried(batches: seq<seq<Id>>, hasRow: Id -> bool): seq<seq<Id>> {
    if batches == [] then []
    else if Answered(batches[0], hasRow) then [batches[0]] + Queried(batches[1..], hasRow)
    else [batches[0]]
  }

  function WhereTexts(field: string, batches: seq<seq<Id>>): seq<string> {
    seq(|batches|, k requires 0 <= k < |batches| => WhereText(field, batches[k]))
  }

  /** The answer to a query, by the ids of its rows. */
  function Answer(ids: seq<Id>, hasRow: Id -> bool): set<Id> {
    set id | id in ids && hasRow(id)
  }

  function RowsOf(batches: seq<seq<Id>>, hasRow: Id -> bool): set<Id> {
    Answer(Flatten(batches), hasRow)
  }

  lemma {:induction false} FlattenJoins(a: seq<seq<Id>>, b: seq<seq<Id>>)
    ensures Flatten(a + b) == Flatten(a) + Flatten(b)
  {
    if a == [] {
      assert a + b == b;
    } else {
      FlattenJoins(a[1..], b);
      assert (a + b)[1..] == a[1..] + b && (a + b)[0] == a[0];
      Associate(a[0], Flatten(a[1..]), Flatten(b));
    }
  }

  /** The loop over the batches before round itr. */
  ghost predicate Asking(field: string, guids: seq<Id>, hasRow: Id -> bool, itr: nat, asked: seq<seq<Id>>,
                         queries: seq<string>, rows: set<Id>)
    requires itr <= |guids|
  {
    && queries == WhereTexts(field, asked) && rows == RowsOf(asked, hasRow)
    && Queried(Batches(field, guids, 0), hasRow) == asked + Queried(Batches(field, guids, itr), hasRow)
  }

  lemma AskedNext(asked: seq<seq<Id>>, batch: seq<Id>, field: string, hasRow: Id -> bool)
    ensures WhereTexts(field, asked + [batch]) == WhereTexts(field, asked) + [WhereText(field, batch)]
    ensures RowsOf(asked + [batch], hasRow) == RowsOf(asked, hasRow) + Answer(batch, hasRow)
    ensures Answer(batch, hasRow) == {} <==> !Answered(batch, hasRow)
  {
    FlattenJoins(asked, [batch]);
    assert Flatten([batch]) == batch + Flatten([]);
    if id :| id in batch && hasRow(id) {
      assert id in Answer(batch, hasRow);
    }
  }

  lemma QueriedFirst(asked: seq<seq<Id>>, batch: seq<Id>, rest: seq<seq<Id>>, hasRow: Id -> bool)
    ensures asked + Queried([batch] + rest, hasRow) ==
              if Answered(batch, hasRow) then asked + [batch] + Queried(rest, hasRow) else asked + [batch]
  {
    assert ([batch] + rest)[1..] == rest;
  }

  lemma AskingNext(field: string, guids: seq<Id>, hasRow: Id -> bool, itr: nat, asked: seq<seq<Id>>,
                   queries: seq<string>, rows: set<Id>)
    requires itr < |guids| && Asking(field, guids, hasRow, itr, asked, queries, rows)
    ensures var batch, next := Batch(field, guids, itr), BatchEnd(field, guids, itr, itr);
            var result := Answer(batch, hasRow);
            if result == {}
            then Queried(Batches(field, guids, 0), hasRow) == asked + [batch]
                 && queries + [WhereText(field, batch)] == WhereTexts(field, asked + [batch])
                 && rows == RowsOf(asked + [batch], hasRow)
            else Asking(field, guids, hasRow, next, asked + [batch], queries + [WhereText(field, batch)], rows + result)
  {
    var batch := Batch(field, guids, itr);
    AskedNext(asked, batch, field, hasRow);
    QueriedFirst(asked, batch, Batches(field, guids, BatchEnd(field, guids, itr, itr)), hasRow);
  }

  /** The loop over the batches of one table. hasRow says for which ids the table has rows; a query without
      any ends the table. */
  method DumpTableContent(field: string, guids: seq<Id>, hasRow: Id -> bool)
    returns (queries: seq<string>, rows: set<Id>)
    ensures var asked := Queried(Batches(field, guids, 0), hasRow);
            queries == WhereTexts(field, asked) && rows == RowsOf(asked, hasRow)
  {
    queries, rows := [], {};
    if guids == [] {
      return;
    }
    ghost var asked: seq<seq<Id>> := [];
    var itr := 0;
    while true
      invariant itr < |guids| && Asking(field, guids, hasRow, itr, asked, queries, rows)
      decreases |guids| - itr
    {
      var one, next := GenerateWhereStr(field, guids, itr);
      AskingNext(field, guids, hasRow, itr, asked, queries, rows);
      var result := Answer(guids[itr..next], hasRow);
      asked := asked + [guids[itr..next]];
      queries := queries + [one];
      if result == {} {
        return;
      }
      rows := rows + result;
      itr := next;
      if itr == |guids| {
        assert asked + [] == asked;
        return;
      }
    }
  }

  lemma FlattenFirst(batch: seq<Id>, rest: seq<seq<Id>>)
    ensures Flatten([batch] + rest) == batch + Flatten(rest)
    ensures batch != [] && (forall k :: 0 <= k < |rest| ==> rest[k] != []) ==>
              forall k :: 0 <= k < |[batch] + rest| ==> ([batch] + rest)[k] != []
  {
    assert ([batch] + rest)[1..] == rest;
  }

  /** Together the batches name every id, once and in order. */
  lemma {:induction false} BatchesNameAll(field: string, guids: seq<Id>, itr: nat)
    requires itr <= |guids|
    ensures Flatten(Batches(field, guids, itr)) == guids[itr..]
    ensures forall k :: 0 <= k < |Batches(field, guids, itr)| ==> Batches(field, guids, itr)[k] != []
    decreases |guids| - itr
  {
    if itr < |guids| {
      var end := BatchEnd(field, guids, itr, itr);
      BatchesNameAll(field, guids, end);
      FlattenFirst(guids[itr..end], Batches(field, guids, end));
      SliceInTwo(guids, itr, end);
    }
  }

  lemma SliceInTwo(guids: seq<Id>, itr: nat, end: nat)
    requires itr < end <= |guids|
    ensures guids[itr..end] + guids[end..] == guids[itr..] && guids[itr..end] != []
  {
  }

  lemma {:induction false} QueriedIsAll(batches: seq<seq<Id>>, hasRow: Id -> bool)
    requires batches != [] && forall k :: 0 <= k < |batches| ==> batches[k] != []
    ensures Flatten(Queried(batches, hasRow)) == Flatten(batches)
            <==> forall batch <- batches[..|batches| - 1] :: Answered(batch, hasRow)
  {
    if |batches| > 1 {
      var rest := batches[1..];
      QueriedIsAll(rest, hasRow);
      assert batches[..|batches| - 1] == [batches[0]] + rest[..|rest| - 1];
      if Answered(batches[0], hasRow) {
        SameTails(batches[0], Flatten(Queried(rest, hasRow)), Flatten(rest));
      } else {
        assert batches[0] in batches[..|batches| - 1];
        StopsShort(batches[0], rest);
      }
    }
  }

  lemma StopsShort(batch: seq<Id>, rest: seq<seq<Id>>)
    requires rest != [] && rest[0] != []
    ensures Flatten([batch]) != batch + Flatten(rest)
  {
    assert Flatten([batch]) == batch + Flatten([]);
    assert Flatten(rest) == rest[0] + Flatten(rest[1..]);
  }

  lemma SameTails(a: seq<Id>, b: seq<Id>, c: seq<Id>)
    ensures a + b == a + c <==> b == c
  {
    assert (a + b)[|a|..] == b && (a + c)[|a|..] == c;
  }

  /** Every id is queried exactly if every batch but the last has an answer. */
  lemma AllIdsAreQueried(field: string, guids: seq<Id>, hasRow: Id -> bool)
    requires guids != []
    ensures var batches := Batches(field, guids, 0);
            && batches != []
            && (Flatten(Queried(batches, hasRow)) == guids
                <==> forall batch <- batches[..|batches| - 1] :: Answered(batch, hasRow))
  {
    BatchesNameAll(field, guids, 0);
    QueriedIsAll(Batches(field, guids, 0), hasRow);
  }

  /** Some batch with rows comes after one without any. */
  ghost predicate RowsAfterGap(batches: seq<seq<Id>>, hasRow: Id -> bool) {
    exists j, k :: 0 <= j < k < |batches| && !Answered(batches[j], hasRow) && Answered(batches[k], hasRow)
  }

  lemma {:induction false} InFlatten(batches: seq<seq<Id>>, id: Id)
    ensures id in Flatten(batches) <==> exists k :: 0 <= k < |batches| && id in batches[k]
  {
    if batches != [] {
      InFlatten(batches[1..], id);
      assert forall k :: 0 < k < |batches| ==> batches[k] == batches[1..][k - 1];
    }
  }

  lemma GapBehindFirst(batches: seq<seq<Id>>, hasRow: Id -> bool)
    requires batches != []
    ensures RowsAfterGap(batches, hasRow) <==>
              if Answered(batches[0], hasRow) then RowsAfterGap(batches[1..], hasRow)
              else exists k :: 0 <= k < |batches| - 1 && Answered(batches[1..][k], hasRow)
  {
    var rest := batches[1..];
    assert forall k :: 0 < k < |batches| ==> batches[k] == rest[k - 1];
    if RowsAfterGap(rest, hasRow) {
      var j, k :| 0 <= j < k < |rest| && !Answered(rest[j], hasRow) && Answered(rest[k], hasRow);
      assert !Answered(batches[j + 1], hasRow) && Answered(batches[k + 1], hasRow);
    }
    if k :| 0 <= k < |rest| && Answered(rest[k], hasRow) {
      assert Answered(batches[k + 1], hasRow);
    }
  }

  lemma {:induction false} NothingButGaps(batches: seq<seq<Id>>, hasRow: Id -> bool)
    ensures RowsOf(batches, hasRow) == {} <==> !exists k :: 0 <= k < |batches| && Answered(batches[k], hasRow)
  {
    if RowsOf(batches, hasRow) != {} {
      var id :| id in RowsOf(batches, hasRow);
      InFlatten(batches, id);
    }
    if k :| 0 <= k < |batches| && Answered(batches[k], hasRow) {
      var id :| id in batches[k] && hasRow(id);
      InFlatten(batches, id);
      assert id in RowsOf(batches, hasRow);
    }
  }

  lemma RowsOfFirst(batch: seq<Id>, rest: seq<seq<Id>>, hasRow: Id -> bool)
    ensures RowsOf([batch] + rest, hasRow) == RowsOf([batch], hasRow) + RowsOf(rest, hasRow)
  {
    FlattenJoins([batch], rest);
  }

  lemma {:induction false} RowsAreKept(batches: seq<seq<Id>>, hasRow: Id -> bool)
    requires Distinct(Flatten(batches))
    ensures RowsOf(Queried(batches, hasRow), hasRow) <= RowsOf(batches, hasRow)
    ensures RowsOf(Queried(batches, hasRow), hasRow) == RowsOf(batches, hasRow) <==> !RowsAfterGap(batches, hasRow)
  {
    if batches != [] {
      var first, rest := batches[0], batches[1..];
      assert batches == [first] + rest;
      assert Flatten(rest) == Flatten(batches)[|first|..];
      RowsAreKept(rest, hasRow);
      GapBehindFirst(batches, hasRow);
      RowsOfFirst(first, rest, hasRow);
      assert RowsOf([first], hasRow) !! RowsOf(rest, hasRow) by {
        assert Flatten([first]) == first;
      }
      if Answered(first, hasRow) {
        RowsOfFirst(first, Queried(rest, hasRow), hasRow);
      } else {
        NothingButGaps(rest, hasRow);
      }
    }
  }

  /** The dump misses no row of the table exactly if no batch with rows comes after one without any. */
  lemma AllRowsAreDumped(field: string, guids: seq<Id>, hasRow: Id -> bool)
    requires Distinct(guids)
    ensures var batches := Batches(field, guids, 0);
            RowsOf(Queried(batches, hasRow), hasRow) == Answer(guids, hasRow) <==> !RowsAfterGap(batches, hasRow)
  {
    BatchesNameAll(field, guids, 0);
    RowsAreKept(Batches(field, guids, 0), hasRow);
    assert guids[0..] == guids;
  }

  lemma FirstGiftBatch(n: nat)
    requires n == 2517
    ensures var ids := LongIds([10_000_000], n);
            |ids| == 2518 && Increasing(ids) && ids[2517] == 1_000_002_517 && BatchEnd("item_guid", ids, 0, 0) == 2517
  {
    GiftIds(n - 2);
    GiftIds(n - 1);
    GiftIds(n);
    var ids := LongIds([10_000_000], n);
    assert ids[..2517] == LongIds([10_000_000], n - 1);
    assert ids[..2516] == LongIds([10_000_000], n - 2);
    BatchEndsAt("item_guid", ids, 2517);
  }

  lemma UnansweredFirst(batches: seq<seq<Id>>, hasRow: Id -> bool)
    requires batches != [] && !Answered(batches[0], hasRow)
    ensures RowsOf(Queried(batches, hasRow), hasRow) == {}
  {
    assert Flatten([batches[0]]) == batches[0] + Flatten([]);
  }

  /** 2518 item guids of which only the last has a row: the first query has no answer, and the row is not
      dumped. */
  lemma EmptyBatchLosesRows(hasRow: Id -> bool)
    requires forall id :: hasRow(id) <==> id == 1_000_002_517
    ensures var ids := LongIds([10_000_000], 2517);
            && Increasing(ids) && Answer(ids, hasRow) == {1_000_002_517}
            && RowsOf(Queried(Batches("item_guid", ids, 0), hasRow), hasRow) == {}
  {
    FirstGiftBatch(2517);
    var ids := LongIds([10_000_000], 2517);
    var batch := Batch("item_guid", ids, 0);
    forall id <- batch ensures !hasRow(id) {
      assert id < ids[2517];
    }
    UnansweredFirst(Batches("item_guid", ids, 0), hasRow);
  }
}
