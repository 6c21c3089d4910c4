/** Text of character dumps: src/game/PlayerDump.cpp.

    A dump holds one SQL statement a line, written by CreateDumpString. Loading it never parses SQL: the
    n-th value is found by counting single quotes from the first "VALUES ('". Positions are 64-bit
    std::string::size_type values and wrap around; NPOS, the answer of a failed search, is the largest.
    Values are texts as they stand in the statement, after escaping. */
module DumpText {
  import opened Basics

  const SIZE_LIMIT: nat := 0x1_0000_0000_0000_0000
  const NPOS: nat := SIZE_LIMIT - 1
  const MAX_SIZE: nat := 0x7FFF_FFFF_FFFF_FFFF

  const QUOTE: char := '\U{0027}'
  const BACKSLASH: char := '\U{005C}'

  /** A sum of two positions. */
  function Wrapped(n: nat): nat {
    if n < SIZE_LIMIT then n else n - SIZE_LIMIT
  }

  /** A string a machine can hold. */
  predicate Fits(str: string) {
    |str| < MAX_SIZE
  }

  // ---------- std::string::find ----------

  predicate MatchesAt(str: string, pat: string, k: nat) {
    k + |pat| <= |str| && str[k..k + |pat|] == pat
  }

  function Find(str: string, pat: string, from: nat): (r: nat)
    requires Fits(str)
    ensures r != NPOS ==> from <= r && MatchesAt(str, pat, r)
    ensures forall k: nat :: from <= k < r ==> !MatchesAt(str, pat, k)
    decreases |str| + |pat| - from
  {
    if from + |pat| > |str| then NPOS
    else if str[from..from + |pat|] == pat then from
    else Find(str, pat, from + 1)
  }

  function FindChar(str: string, c: char, from: nat): (r: nat)
    requires Fits(str)
    ensures r != NPOS ==> from <= r < |str| && str[r] == c
    ensures forall k: nat :: from <= k < r && k < |str| ==> str[k] != c
    decreases |str| - from
  {
    if from >= |str| then NPOS
    else if str[from] == c then from
    else FindChar(str, c, from + 1)
  }

  // ---------- where the n-th value is ----------

  /** The outcome of findnth: the value at [s, e), no such value, or a search that never ends. */
  datatype Place = Found(s: nat, e: nat) | Missing | Endless

  /** Text that findnth can hand out: without quotes, and not ending in a backslash. */
  predicate Plain(v: string) {
    QuoteFree(v) && (v != "" ==> v[|v| - 1] != BACKSLASH)
  }

  predicate QuoteFree(v: string) {
    forall k :: 0 <= k < |v| ==> v[k] != QUOTE
  }

  predicate Within(str: string, p: Place) {
    p.Found? ==> p.s <= p.e < |str|
  }

  /** Past the list's opening quote. A backslash before the closing quote leaves s where it is. */
  function FirstPlace(str: string): (p: Place)
    requires Fits(str)
    ensures Within(str, p)
  {
    var s := Wrapped(Find(str, "VALUES ('", 0) + 9);
    if s == NPOS then Missing
    else
      var e := FindChar(str, QUOTE, s);
      if e == NPOS then Missing
      else if str[e - 1] == BACKSLASH then Endless
      else Found(s, e)
  }

  /** The value after the one that ends at e: four characters on, past "', '". */
  function NextPlace(str: string, e: nat): (p: Place)
    requires Fits(str) && e < |str|
    ensures Within(str, p) && p != Endless
    decreases |str| - e
  {
    var s := e + 4;
    var next := FindChar(str, QUOTE, s);
    if next == NPOS then Missing
    else if str[next - 1] == BACKSLASH then NextPlace(str, next)
    else Found(s, next)
  }

  /** The n-th value, counted from a first one. */
  function NthFrom(str: string, first: Place, n: nat): (p: Place)
    requires Fits(str) && Within(str, first)
    ensures Within(str, p)
  {
    if n <= 1 then first
    else
      match NthFrom(str, first, n - 1)
      case Found(_, e) => NextPlace(str, e)
      case other => other
  }

  function NthPlace(str: string, n: nat): (p: Place)
    requires Fits(str)
    ensures Within(str, p)
  {
    NthFrom(str, FirstPlace(str), n)
  }

  /** The n-th value is found and is v. */
  predicate Reads(str: string, n: nat, v: string)
    requires Fits(str)
  {
    var p := NthPlace(str, n);
    p.Found? && str[p.s..p.e] == v
  }

  datatype Status = Done | Failed | Stuck

  /** What changenth leaves behind. */
  function Changed(str: string, n: nat, with: string, insert: bool, nonzero: bool): (Status, string)
    requires Fits(str)
  {
    match NthPlace(str, n)
    case Missing => (Failed, str)
    case Endless => (Stuck, str)
    case Found(s, e) =>
      if nonzero && str[s..e] == "0" then (Done, str)
      else if insert then (Done, str[..s] + with + str[s..])
      else (Done, str[..s] + with + str[e..])
  }

  function TableName(str: string): string
    requires Fits(str)
  {
    var e := FindChar(str, '`', 13);
    if e == NPOS then "" else str[13..e]
  }

  // ---------- where the n-th token is ----------

  /** The position past k more blanks, if there are so many. */
  function SkipTokens(str: string, s: nat, k: nat): (r: nat)
    requires Fits(str) && s <= |str|
    ensures r == NPOS || s <= r <= |str|
    decreases k
  {
    if k == 0 then s
    else
      var blank := FindChar(str, ' ', s);
      if blank == NPOS then NPOS else SkipTokens(str, blank + 1, k - 1)
  }

  function NthToken(str: string, n: nat): (p: Place)
    requires Fits(str)
    ensures p.Found? ==> p.s <= p.e < |str|
    ensures p != Endless
  {
    var s := SkipTokens(str, 0, if n == 0 then 0 else n - 1);
    if s == NPOS then Missing
    else
      var e := FindChar(str, ' ', s);
      if e == NPOS then Missing else Found(s, e)
  }

  // ---------- the line that is edited in place ----------

  class DumpLine {
    var str: string

    constructor (text: string)
      ensures str == text
    {
      str := text;
    }

    method FindNth(n: nat) returns (p: Place)
      requires Fits(str)
      ensures p == NthPlace(str, n)
    {
      ghost var first := FirstPlace(str);
      var s: nat := Wrapped(Find(str, "VALUES ('", 0) + 9);
      if s == NPOS {
        return Missing;
      }
      var e: nat := FindChar(str, QUOTE, s);
      OutcomeStays(str, first, 0, n);
      if e == NPOS {
        return Missing;
      }
      if str[e - 1] == BACKSLASH {
        return Endless;
      }
      p := FindFurther(n, s, e, first);
    }

    /** The second part of findnth: n - 1 values on from the first one. */
    method FindFurther(n: nat, s0: nat, e0: nat, ghost first: Place) returns (p: Place)
      requires Fits(str) && first == Found(s0, e0) && Within(str, first)
      ensures p == NthFrom(str, first, n)
    {
      p := Found(s0, e0);
      var i: nat := 1;
      while i < n
        invariant 1 <= i && (i <= n || i == 1)
        invariant p.Found? && Within(str, p) && p == NthFrom(str, first, i)
      {
        NthNext(str, first, i, p.s, p.e);
        p := FindNext(p.e);
        i := i + 1;
        if p == Missing {
          OutcomeStays(str, first, i, n);
          return;
        }
      }
    }

    /** The inner loop: past quotes that a backslash precedes. */
    method FindNext(last: nat) returns (p: Place)
      requires Fits(str) && last < |str|
      ensures p == NextPlace(str, last)
    {
      var e: nat := last;
      while true
        invariant e < |str| && NextPlace(str, e) == NextPlace(str, last)
        decreases |str| - e
      {
        var s: nat := e + 4;
        e := FindChar(str, QUOTE, s);
        if e == NPOS {
          return Missing;
        }
        if str[e - 1] != BACKSLASH {
          return Found(s, e);
        }
      }
    }

    method GetNth(n: nat) returns (v: string, stuck: bool)
      requires Fits(str)
      ensures stuck <==> NthPlace(str, n) == Endless
      ensures NthPlace(str, n).Found? ==> Reads(str, n, v)
      ensures !NthPlace(str, n).Found? ==> v == ""
    {
      var p := FindNth(n);
      v := if p.Found? then str[p.s..p.e] else "";
      stuck := p.Endless?;
    }

    method ChangeNth(n: nat, with: string, insert: bool, nonzero: bool) returns (r: Status)
      requires Fits(str)
      modifies this
      ensures (r, str) == Changed(old(str), n, with, insert, nonzero)
    {
      var p := FindNth(n);
      match p
      case Missing => r := Failed;
      case Endless => r := Stuck;
      case Found(s, e) =>
        r := Done;
        if nonzero && str[s..e] == "0" {
        } else if insert {
          str := str[..s] + with + str[s..];
        } else {
          str := str[..s] + with + str[e..];
        }
    }

    method GetTableName() returns (tn: string)
      requires Fits(str)
      ensures tn == TableName(str)
    {
      var e := FindChar(str, '`', 13);
      if e == NPOS {
        return "";
      }
      tn := str[13..e];
    }

    method FindTokNth(n: nat) returns (p: Place)
      requires Fits(str)
      ensures p == NthToken(str, n)
    {
      var s, i := 0, 1;
      ghost var k: nat := if n == 0 then 0 else n - 1;
      while s < |str| && i < n
        invariant s <= |str| && 1 <= i && (i <= n || i == 1)
        invariant SkipTokens(str, 0, k) == SkipTokens(str, s, if n == 0 then 0 else n - i)
      {
        if str[s] == ' ' {
          i := i + 1;
        }
        s := s + 1;
      }
      if i < n {
        return Missing;
      }
      var e := FindChar(str, ' ', s);
      p := if e == NPOS then Missing else Found(s, e);
    }

    method ChangeTokNth(n: nat, with: string, insert: bool, nonzero: bool) returns (ok: bool)
      requires Fits(str)
      modifies this
      ensures ok <==> NthToken(old(str), n).Found?
      ensures ok ==> var p := NthToken(old(str), n);
                     str == if nonzero && old(str)[p.s..p.e] == "0" then old(str)
                            else old(str)[..p.s] + with + old(str)[if insert then p.s else p.e..]
      ensures !ok ==> str == old(str)
    {
      var p := FindTokNth(n);
      if !p.Found? {
        return false;
      }
      ok := true;
      if nonzero && str[p.s..p.e] == "0" {
      } else if insert {
        str := str[..p.s] + with + str[p.s..];
      } else {
        str := str[..p.s] + with + str[p.e..];
      }
    }
  }

  lemma NthNext(str: string, first: Place, n: nat, s: nat, e: nat)
    requires Fits(str) && Within(str, first) && n > 0 && NthFrom(str, first, n) == Found(s, e)
    ensures NthFrom(str, first, n + 1) == NextPlace(str, e)
  {
  }

  lemma {:induction false} OutcomeStays(str: string, first: Place, i: nat, n: nat)
    requires Fits(str) && Within(str, first) && i <= n
    ensures var p := NthFrom(str, first, i); !p.Found? ==> NthFrom(str, first, n) == p
    decreases n - i
  {
    if i < n {
      OutcomeStays(str, first, i + 1, n);
    }
  }

  // ---------- what CreateDumpString prints ----------

  datatype Column = Null | Value(text: string)

  function Header(tn: string): string {
    "INSERT INTO `" + tn + "` VALUES ("
  }

  function ColumnText(c: Column): string {
    if c.Null? then "NULL" else "'" + c.text + "'"
  }

  function Joined(fields: seq<Column>): string {
    if fields == [] then ""
    else if |fields| == 1 then ColumnText(fields[0])
    else Joined(fields[..|fields| - 1]) + ", " + ColumnText(fields[|fields| - 1])
  }

  function Separator(i: nat): string {
    if i == 0 then "" else ", "
  }

  lemma JoinedStep(fields: seq<Column>, i: nat)
    requires i < |fields|
    ensures Joined(fields[..i + 1]) == Joined(fields[..i]) + Separator(i) + ColumnText(fields[i])
  {
    assert fields[..i + 1][..i] == fields[..i];
    assert i == 0 ==> Joined(fields[..i]) == "";
  }

  method AppendColumn(ss: string, i: nat, c: Column) returns (r: string)
    ensures r == ss + Separator(i) + ColumnText(c)
  {
    r := ss;
    if i != 0 {
      r := r + ", ";
    }
    assert r == ss + Separator(i);
    r := r + if c.Null? then "NULL" else "'" + c.text + "'";
  }

  method CreateDumpString(tn: string, fields: seq<Column>) returns (ss: string)
    ensures ss == Header(tn) + Joined(fields) + ");"
  {
    var header := "INSERT INTO `" + tn + "` VALUES (";
    ss := header;
    for i := 0 to |fields|
      invariant ss == header + Joined(fields[..i])
    {
      JoinedStep(fields, i);
      Associate(header, Joined(fields[..i]), Separator(i));
      Associate(header, Joined(fields[..i]) + Separator(i), ColumnText(fields[i]));
      ss := AppendColumn(ss, i, fields[i]);
    }
    assert fields[..|fields|] == fields;
    ss := ss + ");";
  }

  /** The statement up to the i-th value, and from its closing quote on. */
  function Before(tn: string, values: seq<string>, i: nat): string
    requires i < |values|
  {
    if i == 0 then Header(tn) + "'" else Before(tn, values, i - 1) + values[i - 1] + "', '"
  }

  function After(values: seq<string>, i: nat, tail: string): string
    requires i < |values|
    decreases |values| - i
  {
    if i == |values| - 1 then "');" + tail else "', '" + values[i + 1] + After(values, i + 1, tail)
  }

  /** A row as it stands in a dump: the statement and what ends its line. */
  function RowText(tn: string, values: seq<string>, tail: string): string
    requires values != []
  {
    Before(tn, values, 0) + values[0] + After(values, 0, tail)
  }

  lemma {:induction false} RowSplits(tn: string, values: seq<string>, i: nat, tail: string)
    requires i < |values|
    ensures RowText(tn, values, tail) == Before(tn, values, i) + values[i] + After(values, i, tail)
  {
    if i > 0 {
      RowSplits(tn, values, i - 1, tail);
    }
  }

  lemma {:induction false} JoinedRow(tn: string, fields: seq<Column>, values: seq<string>)
    requires |fields| == |values| > 0
    requires forall k :: 0 <= k < |fields| ==> fields[k] == Value(values[k])
    ensures Header(tn) + Joined(fields) == Before(tn, values, |values| - 1) + values[|values| - 1] + "'"
  {
    var last := |fields| - 1;
    var v := values[last];
    assert fields[last] == Value(v) && ColumnText(fields[last]) == "'" + v + "'";
    assert fields[..last + 1] == fields;
    JoinedStep(fields, last);
    if last == 0 {
      FirstQuoted(Header(tn), v);
    } else {
      JoinedRow(tn, fields[..last], values[..last]);
      BeforeIsLocal(tn, values[..last], values, last - 1);
      Requoted(Header(tn), Joined(fields[..last]), Before(tn, values, last - 1), values[last - 1], v);
    }
  }

  lemma FirstQuoted(header: string, v: string)
    ensures header + ("" + "" + ("'" + v + "'")) == header + "'" + v + "'"
  {
  }

  lemma Requoted(header: string, joined: string, before: string, u: string, v: string)
    requires header + joined == before + u + "'"
    ensures header + (joined + ", " + ("'" + v + "'")) == before + u + "', '" + v + "'"
  {
    Associate(header, joined, ", ");
    Associate(header, joined + ", ", "'" + v + "'");
    assert "'" + ", " + "'" == "', '";
    assert before + u + "'" + ", " + ("'" + v + "'") == before + u + ("'" + ", " + "'") + v + "'";
  }

  lemma {:induction false} BeforeIsLocal(tn: string, a: seq<string>, b: seq<string>, i: nat)
    requires i < |a| && i < |b| && a[..i] == b[..i]
    ensures Before(tn, a, i) == Before(tn, b, i)
  {
    if i > 0 {
      assert a[i - 1] == a[..i][i - 1] && b[i - 1] == b[..i][i - 1];
      assert a[..i - 1] == a[..i][..i - 1] && b[..i - 1] == b[..i][..i - 1];
      BeforeIsLocal(tn, a, b, i - 1);
    }
  }

  lemma {:induction false} AfterIsLocal(a: seq<string>, b: seq<string>, i: nat, tail: string)
    requires i < |a| == |b| && forall k :: i < k < |a| ==> a[k] == b[k]
    ensures After(a, i, tail) == After(b, i, tail)
    decreases |a| - i
  {
    if i < |a| - 1 {
      AfterIsLocal(a, b, i + 1, tail);
    }
  }

  /** Without NULL columns the printer's output is the row text the parser lemmas speak of. */
  lemma PrintsRowText(tn: string, fields: seq<Column>, values: seq<string>)
    requires |fields| == |values| > 0
    requires forall k :: 0 <= k < |fields| ==> fields[k] == Value(values[k])
    ensures Header(tn) + Joined(fields) + ");" == RowText(tn, values, "")
  {
    var last := |values| - 1;
    var before, v := Before(tn, values, last), values[last];
    JoinedRow(tn, fields, values);
    RowSplits(tn, values, last, "");
    assert After(values, last, "") == "'" + ");" by {
      assert "');" + "" == "'" + ");";
    }
    Associate(before + v, "'", ");");
  }

  // ---------- the parser undoes the printer ----------

  /** A name that fits between backticks, in front of the value list. */
  predicate NamesTable(tn: string) {
    '`' !in tn && QuoteFree(tn)
  }

  predicate AllPlain(values: seq<string>) {
    forall k :: 0 <= k < |values| ==> Plain(values[k])
  }

  /** A row the parser reads back: the name and the tail are harmless, the values are given. */
  predicate IsRow(tn: string, values: seq<string>, tail: string) {
    values != [] && NamesTable(tn) && QuoteFree(tail) && Fits(RowText(tn, values, tail))
  }

  /** v stands at s, between quotes. */
  predicate Quoted(str: string, s: nat, v: string) {
    && 0 < s && s + |v| < |str|
    && str[s - 1] == QUOTE && str[s + |v|] == QUOTE
    && forall k :: 0 <= k < |v| ==> str[s + k] == v[k]
  }

  /** Where the values stand: each four characters behind the end of the one before, and no quote behind
      the last one's. */
  ghost predicate LaidOut(str: string, starts: nat -> nat, values: seq<string>)
    requires Fits(str)
  {
    values != [] && AllQuoted(str, starts, values) && Apart(starts, values) && LastQuote(str, starts, values)
  }

  ghost predicate AllQuoted(str: string, starts: nat -> nat, values: seq<string>) {
    forall i: nat :: i < |values| ==> Quoted(str, starts(i), values[i])
  }

  ghost predicate Apart(starts: nat -> nat, values: seq<string>) {
    forall i: nat, j: nat :: i + 1 == j < |values| ==> starts(j) == starts(i) + |values[i]| + 4
  }

  ghost predicate LastQuote(str: string, starts: nat -> nat, values: seq<string>)
    requires values != []
  {
    forall k :: starts(|values| - 1) + |values[|values| - 1]| < k < |str| ==> str[k] != QUOTE
  }

  /** The closing quote of a plain value is the first quote from its start, and closes it for good. */
  lemma ClosingQuote(str: string, s: nat, v: string)
    requires Fits(str) && Quoted(str, s, v) && QuoteFree(v)
    ensures FindChar(str, QUOTE, s) == s + |v|
    ensures str[s + |v| - 1] == BACKSLASH <==> !Plain(v)
  {
    forall k | s <= k < s + |v|
      ensures str[k] != QUOTE
    {
      assert v[k - s] != QUOTE;
    }
    assert v != "" ==> str[s + |v| - 1] == v[|v| - 1];
  }

  lemma FirstIsFound(str: string, s: nat, v: string)
    requires Fits(str) && Quoted(str, s, v) && Plain(v) && s == Find(str, "VALUES ('", 0) + 9
    ensures FirstPlace(str) == Found(s, s + |v|)
  {
    ClosingQuote(str, s, v);
  }

  lemma NextIsFound(str: string, e: nat, v: string)
    requires Fits(str) && e < |str| && Quoted(str, e + 4, v) && Plain(v)
    ensures NextPlace(str, e) == Found(e + 4, e + 4 + |v|)
  {
    ClosingQuote(str, e + 4, v);
  }

  lemma LaidOutAt(str: string, starts: nat -> nat, values: seq<string>, i: nat)
    requires Fits(str) && LaidOut(str, starts, values) && 0 < i < |values|
    ensures Quoted(str, starts(i), values[i]) && starts(i) == starts(i - 1) + |values[i - 1]| + 4
  {
  }

  lemma NthStep(str: string, first: Place, n: nat, s: nat, e: nat, v: string)
    requires Fits(str) && Within(str, first) && n > 0 && NthFrom(str, first, n) == Found(s, e)
    requires Quoted(str, e + 4, v) && Plain(v)
    ensures NthFrom(str, first, n + 1) == Found(e + 4, e + 4 + |v|)
  {
    NextIsFound(str, e, v);
  }

  /** findnth stops exactly at the n-th value. */
  lemma {:induction false} NthIsFound(str: string, starts: nat -> nat, values: seq<string>, first: Place, i: nat)
    requires Fits(str) && Within(str, first) && LaidOut(str, starts, values) && AllPlain(values) && i < |values|
    requires first == Found(starts(0), starts(0) + |values[0]|)
    ensures NthFrom(str, first, i + 1) == Found(starts(i), starts(i) + |values[i]|)
  {
    if i > 0 {
      NthIsFound(str, starts, values, first, i - 1);
      LaidOutAt(str, starts, values, i);
      NthStep(str, first, i, starts(i - 1), starts(i - 1) + |values[i - 1]|, values[i]);
    }
  }

  /** And finds nothing past the last value. */
  lemma {:induction false} NothingPastTheEnd(str: string, starts: nat -> nat, values: seq<string>, first: Place, n: nat)
    requires Fits(str) && Within(str, first) && LaidOut(str, starts, values) && AllPlain(values) && n > |values|
    requires first == Found(starts(0), starts(0) + |values[0]|)
    ensures NthFrom(str, first, n) == Missing
  {
    if n > |values| + 1 {
      NothingPastTheEnd(str, starts, values, first, n - 1);
    } else {
      NthIsFound(str, starts, values, first, |values| - 1);
    }
  }

  function Start(tn: string, values: seq<string>, i: nat): nat {
    if i < |values| then |Before(tn, values, i)| else 0
  }

  function Starts(tn: string, values: seq<string>): nat -> nat {
    i => Start(tn, values, i)
  }

  lemma {:induction false} BeforeEndsInQuote(tn: string, values: seq<string>, i: nat)
    requires i < |values|
    ensures |Before(tn, values, i)| > 8 && Before(tn, values, i)[|Before(tn, values, i)| - 1] == QUOTE
  {
    if i > 0 {
      BeforeEndsInQuote(tn, values, i - 1);
    }
  }

  lemma Splice(str: string, a: string, v: string, b: string)
    requires str == a + v + b
    ensures str[..|a|] == a && str[|a|..|a| + |v|] == v && str[|a|..] == v + b && str[|a| + |v|..] == b
  {
  }

  lemma ValueIsQuoted(tn: string, values: seq<string>, i: nat, tail: string)
    requires i < |values|
    ensures Quoted(RowText(tn, values, tail), |Before(tn, values, i)|, values[i])
  {
    RowSplits(tn, values, i, tail);
    BeforeEndsInQuote(tn, values, i);
    assert After(values, i, tail)[0] == QUOTE;
    Splice(RowText(tn, values, tail), Before(tn, values, i), values[i], After(values, i, tail));
  }

  lemma ListStart(str: string, header: string, rest: string)
    requires Fits(str) && str == header + rest && QuoteFree(header) && |header| >= 8
    requires header[|header| - 8..] == "VALUES (" && rest != "" && rest[0] == QUOTE
    ensures Find(str, "VALUES ('", 0) == |header| - 8
  {
    var at: nat := |header| - 8;
    assert str[at..at + 9] == header[at..] + [rest[0]];
    assert MatchesAt(str, "VALUES ('", at);
    forall k: nat | k < at
      ensures !MatchesAt(str, "VALUES ('", k)
    {
      assert str[k + 8] == header[k + 8];
      assert str[k..k + 9][8] == str[k + 8];
    }
    var r := Find(str, "VALUES ('", 0);
    assert r <= at;
  }

  /** The list's opening quote stands in front of the first value. */
  lemma RowStarts(tn: string, values: seq<string>, tail: string)
    requires IsRow(tn, values, tail)
    ensures Find(RowText(tn, values, tail), "VALUES ('", 0) + 9 == |Before(tn, values, 0)|
  {
    var str := RowText(tn, values, tail);
    var rest := "'" + values[0] + After(values, 0, tail);
    assert str == Header(tn) + rest;
    assert Header(tn)[|Header(tn)| - 8..] == "VALUES (";
    ListStart(str, Header(tn), rest);
  }

  lemma RowEnds(tn: string, values: seq<string>, tail: string, k: nat)
    requires IsRow(tn, values, tail)
    requires |Before(tn, values, |values| - 1)| + |values[|values| - 1]| < k < |RowText(tn, values, tail)|
    ensures RowText(tn, values, tail)[k] != QUOTE
  {
    var last := |values| - 1;
    RowSplits(tn, values, last, tail);
    var e := |Before(tn, values, last)| + |values[last]|;
    assert After(values, last, tail) == "');" + tail;
    assert RowText(tn, values, tail)[k] == ("');" + tail)[k - e];
  }

  lemma RowIsLaidOut(tn: string, values: seq<string>, tail: string)
    requires IsRow(tn, values, tail)
    ensures LaidOut(RowText(tn, values, tail), Starts(tn, values), values)
  {
    StartsQuoted(tn, values, tail);
    StartsApart(tn, values);
    NoQuoteBehind(tn, values, tail);
  }

  lemma StartsQuoted(tn: string, values: seq<string>, tail: string)
    requires values != []
    ensures AllQuoted(RowText(tn, values, tail), Starts(tn, values), values)
  {
    forall i: nat | i < |values|
      ensures Quoted(RowText(tn, values, tail), Starts(tn, values)(i), values[i])
    {
      StartQuoted(tn, values, i, tail);
    }
  }

  lemma StartQuoted(tn: string, values: seq<string>, i: nat, tail: string)
    requires i < |values|
    ensures Quoted(RowText(tn, values, tail), Starts(tn, values)(i), values[i])
  {
    ValueIsQuoted(tn, values, i, tail);
  }

  lemma StartsApart(tn: string, values: seq<string>)
    ensures Apart(Starts(tn, values), values)
  {
  }

  lemma NoQuoteBehind(tn: string, values: seq<string>, tail: string)
    requires IsRow(tn, values, tail)
    ensures LastQuote(RowText(tn, values, tail), Starts(tn, values), values)
  {
    forall k | Starts(tn, values)(|values| - 1) + |values[|values| - 1]| < k < |RowText(tn, values, tail)|
      ensures RowText(tn, values, tail)[k] != QUOTE
    {
      RowEnds(tn, values, tail, k);
    }
  }

  lemma RowFirst(tn: string, values: seq<string>, tail: string)
    requires IsRow(tn, values, tail) && Plain(values[0])
    ensures var s := Starts(tn, values)(0); FirstPlace(RowText(tn, values, tail)) == Found(s, s + |values[0]|)
  {
    var str, s := RowText(tn, values, tail), Starts(tn, values)(0);
    assert Find(str, "VALUES ('", 0) + 9 == s by {
      RowStarts(tn, values, tail);
    }
    assert Quoted(str, s, values[0]) by {
      StartQuoted(tn, values, 0, tail);
    }
    FirstIsFound(str, s, values[0]);
  }

  /** All that the search for plain values needs to know about a line. */
  ghost predicate Scans(str: string, starts: nat -> nat, values: seq<string>) {
    && Fits(str) && AllPlain(values) && LaidOut(str, starts, values)
    && FirstPlace(str) == Found(starts(0), starts(0) + |values[0]|)
  }

  lemma RowScans(tn: string, values: seq<string>, tail: string)
    requires IsRow(tn, values, tail) && AllPlain(values)
    ensures Scans(RowText(tn, values, tail), Starts(tn, values), values)
  {
    RowIsLaidOut(tn, values, tail);
    RowFirst(tn, values, tail);
  }

  lemma ScannedNth(str: string, starts: nat -> nat, values: seq<string>, i: nat)
    requires Scans(str, starts, values) && i < |values|
    ensures NthPlace(str, i + 1) == Found(starts(i), starts(i) + |values[i]|)
    ensures Reads(str, i + 1, values[i])
  {
    NthIsFound(str, starts, values, FirstPlace(str), i);
    QuotedReads(str, starts(i), values[i]);
  }

  lemma ScannedPastTheEnd(str: string, starts: nat -> nat, values: seq<string>, n: nat)
    requires Scans(str, starts, values) && n > |values|
    ensures NthPlace(str, n) == Missing
  {
    NothingPastTheEnd(str, starts, values, FirstPlace(str), n);
  }

  lemma TableNameReadsBack(tn: string, values: seq<string>, tail: string)
    requires IsRow(tn, values, tail)
    ensures TableName(RowText(tn, values, tail)) == tn
  {
    var str := RowText(tn, values, tail);
    var rest := "` VALUES (" + "'" + values[0] + After(values, 0, tail);
    assert str == "INSERT INTO `" + tn + rest;
    Splice(str, "INSERT INTO `", tn, rest);
    assert str[13 + |tn|] == rest[0] == '`';
    forall k | 13 <= k < 13 + |tn|
      ensures str[k] != '`'
    {
      assert str[k] == str[13..13 + |tn|][k - 13];
    }
  }

  lemma {:induction false} NextIsPlain(str: string, e: nat)
    requires Fits(str) && e < |str|
    ensures var p := NextPlace(str, e); p.Found? ==> Plain(str[p.s..p.e])
    decreases |str| - e
  {
    var next := FindChar(str, QUOTE, e + 4);
    if next != NPOS && str[next - 1] == BACKSLASH {
      NextIsPlain(str, next);
    }
  }

  lemma FirstIsPlain(str: string)
    requires Fits(str)
    ensures var p := FirstPlace(str); p.Found? ==> Plain(str[p.s..p.e])
  {
  }

  /** Whatever findnth finds is plain. */
  lemma FoundIsPlain(str: string, n: nat)
    requires Fits(str)
    ensures var p := NthPlace(str, n); p.Found? ==> Plain(str[p.s..p.e])
  {
    FirstIsPlain(str);
    var first := FirstPlace(str);
    if n > 1 && NthFrom(str, first, n - 1).Found? {
      NextIsPlain(str, NthFrom(str, first, n - 1).e);
    }
  }

  lemma QuotedReads(str: string, s: nat, v: string)
    requires Quoted(str, s, v)
    ensures str[s..s + |v|] == v
  {
  }

  /** Every value reads back exactly when every value is plain. */
  lemma ValuesReadBack(tn: string, values: seq<string>, tail: string)
    requires IsRow(tn, values, tail)
    ensures ReadsAll(RowText(tn, values, tail), values) <==> AllPlain(values)
  {
    if AllPlain(values) {
      forall i: nat | i < |values|
        ensures Reads(RowText(tn, values, tail), i + 1, values[i])
      {
        PlainValueReads(tn, values, i, tail);
      }
    }
    if ReadsAll(RowText(tn, values, tail), values) {
      ReadValuesArePlain(RowText(tn, values, tail), values);
    }
  }

  /** getnth gives back all the values. */
  ghost predicate ReadsAll(str: string, values: seq<string>)
    requires Fits(str)
  {
    forall i: nat :: i < |values| ==> Reads(str, i + 1, values[i])
  }

  lemma ReadValuesArePlain(str: string, values: seq<string>)
    requires Fits(str) && ReadsAll(str, values)
    ensures AllPlain(values)
  {
    forall k: nat | k < |values|
      ensures Plain(values[k])
    {
      assert Reads(str, k + 1, values[k]);
      FoundIsPlain(str, k + 1);
    }
  }

  lemma PlainValueReads(tn: string, values: seq<string>, i: nat, tail: string)
    requires IsRow(tn, values, tail) && AllPlain(values) && i < |values|
    ensures Reads(RowText(tn, values, tail), i + 1, values[i])
  {
    RowScans(tn, values, tail);
    ScannedNth(RowText(tn, values, tail), Starts(tn, values), values, i);
  }

  lemma NoValuePastTheEnd(tn: string, values: seq<string>, n: nat, tail: string)
    requires IsRow(tn, values, tail) && AllPlain(values) && n > |values|
    ensures NthPlace(RowText(tn, values, tail), n) == Missing
  {
    RowScans(tn, values, tail);
    ScannedPastTheEnd(RowText(tn, values, tail), Starts(tn, values), values, n);
  }

  function NewValue(v: string, with: string, insert: bool, nonzero: bool): string {
    if nonzero && v == "0" then v else if insert then with + v else with
  }

  lemma ChangedIsSpliced(str: string, n: nat, a: string, v: string, b: string, with: string, insert: bool,
                         nonzero: bool)
    requires Fits(str) && str == a + v + b && NthPlace(str, n) == Found(|a|, |a| + |v|)
    ensures Changed(str, n, with, insert, nonzero) == (Done, a + NewValue(v, with, insert, nonzero) + b)
  {
    Splice(str, a, v, b);
    assert a + with + (v + b) == a + (with + v) + b;
  }

  lemma ScannedChange(str: string, starts: nat -> nat, values: seq<string>, i: nat, a: string, b: string,
                      with: string, insert: bool, nonzero: bool)
    requires Scans(str, starts, values) && i < |values| && str == a + values[i] + b && |a| == starts(i)
    ensures Changed(str, i + 1, with, insert, nonzero) == (Done, a + NewValue(values[i], with, insert, nonzero) + b)
  {
    ScannedNth(str, starts, values, i);
    ChangedIsSpliced(str, i + 1, a, values[i], b, with, insert, nonzero);
  }

  /** changenth on a printed row: the printed form of the row with that one value changed. */
  lemma ChangePrintsChangedRow(tn: string, values: seq<string>, i: nat, with: string, insert: bool, nonzero: bool,
                               tail: string)
    requires IsRow(tn, values, tail) && AllPlain(values) && i < |values|
    ensures Changed(RowText(tn, values, tail), i + 1, with, insert, nonzero)
            == (Done, RowText(tn, values[i := NewValue(values[i], with, insert, nonzero)], tail))
  {
    RowScans(tn, values, tail);
    RowSplits(tn, values, i, tail);
    ScannedChange(RowText(tn, values, tail), Starts(tn, values), values, i,
                  Before(tn, values, i), After(values, i, tail), with, insert, nonzero);
    RowWithValue(tn, values, i, NewValue(values[i], with, insert, nonzero), tail);
  }

  lemma RowWithValue(tn: string, values: seq<string>, i: nat, now: string, tail: string)
    requires i < |values|
    ensures RowText(tn, values[i := now], tail) == Before(tn, values, i) + now + After(values, i, tail)
  {
    RowSplits(tn, values[i := now], i, tail);
    BeforeIsLocal(tn, values, values[i := now], i);
    AfterIsLocal(values, values[i := now], i, tail);
  }

  /** The first quote from the value on stands k characters behind its start. */
  predicate QuoteFirstAt(v: string, k: nat) {
    k <= |v| && (k == |v| || v[k] == QUOTE) && forall i :: 0 <= i < k ==> v[i] != QUOTE
  }

  /** The first quote from the value on, its own or the closing one, has a backslash in front of it. */
  predicate EscapesFirstQuote(v: string) {
    exists k :: 0 < k <= |v| && v[k - 1] == BACKSLASH && QuoteFirstAt(v, k)
  }

  /** findnth never returns, whatever it looks for, exactly if the first quote after the opening one is
      escaped: the first value ends in a backslash, or has an escaped quote before any other. */
  lemma BackslashHangs(tn: string, values: seq<string>, n: nat, tail: string)
    requires IsRow(tn, values, tail)
    ensures NthPlace(RowText(tn, values, tail), n) == Endless <==> EscapesFirstQuote(values[0])
  {
    var str := RowText(tn, values, tail);
    RowStarts(tn, values, tail);
    ValueIsQuoted(tn, values, 0, tail);
    FirstHangs(str, |Before(tn, values, 0)|, values[0]);
    EndlessFromTheStart(str, FirstPlace(str), n);
  }

  /** A quoted value's first quote in the text. */
  lemma FirstQuoteFrom(str: string, s: nat, v: string) returns (k: nat)
    requires Fits(str) && Quoted(str, s, v)
    ensures QuoteFirstAt(v, k) && FindChar(str, QUOTE, s) == s + k
    ensures k > 0 ==> str[s + k - 1] == v[k - 1]
  {
    var e := FindChar(str, QUOTE, s);
    assert e <= s + |v|;
    k := e - s;
    assert forall j :: 0 <= j < |v| ==> v[j] == str[s + j];
  }

  lemma FirstHangs(str: string, s: nat, v: string)
    requires Fits(str) && Quoted(str, s, v) && s == Find(str, "VALUES ('", 0) + 9
    ensures FirstPlace(str) == Endless <==> EscapesFirstQuote(v)
  {
    var k := FirstQuoteFrom(str, s, v);
    assert str[s - 1] == QUOTE;
    assert forall j: nat :: QuoteFirstAt(v, j) ==> j == k;
  }

  lemma {:induction false} EndlessFromTheStart(str: string, first: Place, n: nat)
    requires Fits(str) && Within(str, first)
    ensures NthFrom(str, first, n) == Endless <==> first == Endless
  {
    if n > 1 {
      EndlessFromTheStart(str, first, n - 1);
    }
  }

  /** The check for a missing value list tests the sum, not the search: it never fires, and a line
      without a list is searched from its ninth character. */
  lemma MissingListIsSearchedAnyway(str: string)
    requires Fits(str)
    ensures Wrapped(Find(str, "VALUES ('", 0) + 9) != NPOS
    ensures Find(str, "VALUES ('", 0) == NPOS && FindChar(str, QUOTE, 8) != NPOS ==> FirstPlace(str) != Missing
  {
  }

  // ---------- tokens ----------

  /** Tokens from the k-th on, a blank behind each. */
  function TokenText(tokens: seq<string>, k: nat): string
    requires k <= |tokens|
    decreases |tokens| - k
  {
    if k == |tokens| then "" else tokens[k] + " " + TokenText(tokens, k + 1)
  }

  predicate NoBlanks(tokens: seq<string>) {
    forall k :: 0 <= k < |tokens| ==> ' ' !in tokens[k]
  }

  /** t stands at s, a blank behind it. */
  predicate TokenAt(str: string, s: nat, t: string) {
    s + |t| < |str| && str[s + |t|] == ' ' && forall j :: 0 <= j < |t| ==> str[s + j] == t[j]
  }

  /** The tokens from the i-th on stand in str from s on, to its end. */
  predicate Stand(str: string, tokens: seq<string>, i: nat, s: nat)
    requires i <= |tokens|
    decreases |tokens| - i
  {
    if i == |tokens| then s == |str|
    else TokenAt(str, s, tokens[i]) && Stand(str, tokens, i + 1, s + |tokens[i]| + 1)
  }

  lemma TokenBehind(str: string, s: nat, t: string, rest: string)
    requires s <= |str| && str[s..] == t + (" " + rest)
    ensures TokenAt(str, s, t) && str[s + |t| + 1..] == rest
  {
    var tail := str[s..];
    assert tail[|t|..] == " " + rest;
    assert tail[|t|] == ' ' == str[s + |t|];
    assert forall j :: 0 <= j < |t| ==> str[s + j] == tail[j] == t[j];
    assert str[s + |t| + 1..] == tail[|t|..][1..];
  }

  lemma {:induction false} TextStands(str: string, tokens: seq<string>, i: nat, s: nat)
    requires i <= |tokens| && s <= |str| && str[s..] == TokenText(tokens, i)
    ensures Stand(str, tokens, i, s)
    decreases |tokens| - i
  {
    if i < |tokens| {
      var rest := TokenText(tokens, i + 1);
      Associate(tokens[i], " ", rest);
      TokenBehind(str, s, tokens[i], rest);
      TextStands(str, tokens, i + 1, s + |tokens[i]| + 1);
    }
  }

  /** A token's blank is the first one from its start on. */
  lemma NextBlank(str: string, s: nat, t: string)
    requires Fits(str) && TokenAt(str, s, t) && ' ' !in t
    ensures FindChar(str, ' ', s) == s + |t| && str[s..s + |t|] == t
  {
    forall j | s <= j < s + |t|
      ensures str[j] != ' '
    {
      assert str[j] == t[j - s];
    }
  }

  lemma SkipOne(str: string, s: nat, t: string, k: nat)
    requires Fits(str) && TokenAt(str, s, t) && ' ' !in t && k > 0
    ensures SkipTokens(str, s, k) == SkipTokens(str, s + |t| + 1, k - 1)
  {
    NextBlank(str, s, t);
  }

  lemma {:induction false} SkipFindsToken(str: string, tokens: seq<string>, s: nat, i: nat, k: nat) returns (at: nat)
    requires Fits(str) && NoBlanks(tokens) && i + k < |tokens| && s <= |str| && Stand(str, tokens, i, s)
    ensures at == SkipTokens(str, s, k) && TokenAt(str, at, tokens[i + k])
    decreases k
  {
    if k == 0 {
      at := s;
    } else {
      SkipOne(str, s, tokens[i], k);
      at := SkipFindsToken(str, tokens, s + |tokens[i]| + 1, i + 1, k - 1);
    }
  }

  lemma TextToken(str: string, tokens: seq<string>, s: nat, i: nat, k: nat) returns (at: nat)
    requires Fits(str) && NoBlanks(tokens) && i + k < |tokens| && s <= |str| && str[s..] == TokenText(tokens, i)
    ensures at == SkipTokens(str, s, k) && TokenAt(str, at, tokens[i + k])
  {
    TextStands(str, tokens, i, s);
    at := SkipFindsToken(str, tokens, s, i, k);
  }

  /** gettoknth recovers the n-th of blank-terminated tokens. */
  lemma TokensReadBack(str: string, tokens: seq<string>, n: nat)
    requires NoBlanks(tokens) && Fits(str) && str == TokenText(tokens, 0) && 0 < n <= |tokens|
    ensures var p := NthToken(str, n); p.Found? && str[p.s..p.e] == tokens[n - 1]
  {
    var at := FirstTextToken(str, tokens, n - 1);
    TokenIsFound(str, at, tokens[n - 1], n);
  }

  lemma FirstTextToken(str: string, tokens: seq<string>, k: nat) returns (at: nat)
    requires Fits(str) && NoBlanks(tokens) && k < |tokens| && str == TokenText(tokens, 0)
    ensures at == SkipTokens(str, 0, k) && TokenAt(str, at, tokens[k])
  {
    assert str[0..] == str;
    at := TextToken(str, tokens, 0, 0, k);
  }

  lemma TokenIsFound(str: string, at: nat, t: string, n: nat)
    requires Fits(str) && n > 0 && at == SkipTokens(str, 0, n - 1) && TokenAt(str, at, t) && ' ' !in t
    ensures NthToken(str, n) == Found(at, at + |t|) && str[at..at + |t|] == t
  {
    NextBlank(str, at, t);
  }

  /** A text without blanks has no token at all, not even a first one. The dump writer looks for item
      texts in the guid column of item_instance, a bare number: it collects none. */
  lemma {:induction false} BareNumbersHaveNoTokens(str: string, n: nat)
    requires Fits(str) && ' ' !in str
    ensures NthToken(str, n) == Missing
  {
    assert forall from: nat :: FindChar(str, ' ', from) == NPOS;
    assert n > 1 ==> SkipTokens(str, 0, n - 1) == NPOS;
  }
}
