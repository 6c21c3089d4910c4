/** Ids in dumps: src/game/PlayerDump.cpp. They are 32-bit unsigned, printed with "%d" (so that the upper
    half comes out negative) and read with atoi; each old id met in the dump is mapped to a new one, the
    next free id plus the number of ids mapped so far. */
module DumpIds {
  import opened DumpText

  const UINT32: nat := 0x1_0000_0000

  type Id = n: nat | n < UINT32

  // ---------- printing and reading ----------

  function Digit(d: nat): char
    requires d < 10
  {
    "0123456789"[d]
  }

  predicate IsDigit(c: char) {
    '0' <= c <= '9'
  }

  function DigitValue(c: char): nat
    requires IsDigit(c)
  {
    c as int - '0' as int
  }

  function Decimal(n: nat): string {
    if n < 10 then [Digit(n)] else Decimal(n / 10) + [Digit(n % 10)]
  }

  function AllDigits(s: string): bool {
    forall k :: 0 <= k < |s| ==> IsDigit(s[k])
  }

  function Value(s: string): nat
    requires AllDigits(s)
  {
    if s == "" then 0 else 10 * Value(s[..|s| - 1]) + DigitValue(s[|s| - 1])
  }

  function LeadingDigits(s: string): (r: string)
    ensures AllDigits(r)
  {
    if s == "" || !IsDigit(s[0]) then "" else [s[0]] + LeadingDigits(s[1..])
  }

  predicate IsSpace(c: char) {
    c == ' ' || c == '\t' || c == '\n' || c == '\r' || c as int == 11 || c as int == 12
  }

  function SkipSpaces(s: string): string {
    if s != "" && IsSpace(s[0]) then SkipSpaces(s[1..]) else s
  }

  /** atoi: blanks, a sign, digits; what follows is ignored. */
  function Atoi(s: string): int {
    var t := SkipSpaces(s);
    if t == "" then 0
    else if t[0] == '-' then 0 - Value(LeadingDigits(t[1..]))
    else if t[0] == '+' then Value(LeadingDigits(t[1..]))
    else Value(LeadingDigits(t))
  }

  /** What an integer becomes as an unsigned 32-bit one. */
  function Wrapped32(n: int): (id: Id)
    ensures 0 <= n < UINT32 ==> id == n
    decreases if n < 0 then 0 - n else n
  {
    if n < 0 - UINT32 then Wrapped32(n + UINT32)
    else if n < 0 then n + UINT32
    else if n < UINT32 then n
    else Wrapped32(n - UINT32)
  }

  function ReadId(s: string): Id
  {
    Wrapped32(Atoi(s))
  }

  /** snprintf with "%d": ids from 2^31 on print as negative numbers. */
  function PrintId(id: Id): string
  {
    if id < 0x8000_0000 then Decimal(id) else "-" + Decimal(UINT32 - id)
  }

  lemma DigitsMatch(d: nat)
    requires d < 10
    ensures IsDigit(Digit(d)) && DigitValue(Digit(d)) == d
  {
  }

  lemma {:induction false} DecimalReads(n: nat)
    ensures Decimal(n) != "" && AllDigits(Decimal(n)) && Value(Decimal(n)) == n
  {
    DigitsMatch(n % 10);
    if n < 10 {
      assert Decimal(n)[..0] == "";
    } else {
      DecimalReads(n / 10);
      assert Decimal(n)[..|Decimal(n)| - 1] == Decimal(n / 10);
    }
  }

  lemma {:induction false} LeadingDigitsOfDigits(s: string)
    requires AllDigits(s)
    ensures LeadingDigits(s) == s
  {
    if s != "" {
      LeadingDigitsOfDigits(s[1..]);
      assert [s[0]] + s[1..] == s;
    }
  }

  lemma {:induction false} DecimalIsShort(n: nat, k: nat, bound: nat)
    requires n < bound && bound == Power10(k) && k > 0
    ensures |Decimal(n)| <= k
    decreases k
  {
    if n >= 10 {
      DecimalIsShort(n / 10, k - 1, Power10(k - 1));
    }
  }

  function Power10(k: nat): nat {
    if k == 0 then 1 else 10 * Power10(k - 1)
  }

  /** Every id survives being printed and read, the negative-looking ones included. */
  lemma PrintedIdReads(id: Id)
    ensures ReadId(PrintId(id)) == id
  {
    var n := if id < 0x8000_0000 then id else UINT32 - id;
    DecimalReads(n);
    LeadingDigitsOfDigits(Decimal(n));
    var p := PrintId(id);
    assert SkipSpaces(p) == p;
    assert id >= 0x8000_0000 ==> p[1..] == Decimal(n);
  }

  /** A printed id is harmless in a row, and fits the buffers it is printed into. */
  lemma PrintedIdFits(id: Id)
    ensures Plain(PrintId(id)) && PrintId(id) != "" && |PrintId(id)| < 20
  {
    var n := if id < 0x8000_0000 then id else UINT32 - id;
    DecimalReads(n);
    assert Power10(10) == 10_000_000_000;
    DecimalIsShort(n, 10, 10_000_000_000);
    assert forall k :: 0 <= k < |PrintId(id)| ==> PrintId(id)[k] == '-' || IsDigit(PrintId(id)[k]);
  }

  lemma ZeroReads()
    ensures ReadId("0") == 0 && ReadId("") == 0
  {
    PrintedIdReads(0);
    assert PrintId(0) == "0";
  }

  // ---------- old ids to new ones ----------

  type IdMap = map<Id, Id>

  function Registered(m: IdMap, hi: nat, oldGuid: Id): IdMap {
    if oldGuid in m then m else m[oldGuid := Wrapped32(hi + |m|)]
  }

  method RegisterNewGuid(oldGuid: Id, guidMap: IdMap, hi: nat) returns (newGuid: Id, now: IdMap)
    ensures now == Registered(guidMap, hi, oldGuid)
    ensures oldGuid in now && newGuid == now[oldGuid]
  {
    now := guidMap;
    if oldGuid in guidMap {
      newGuid := guidMap[oldGuid];
    } else {
      newGuid := Wrapped32(hi + |guidMap|);
      now := guidMap[oldGuid := newGuid];
    }
  }

  /** One new id for each old one and one old id for each of the |m| ids from hi on. */
  ghost predicate Bijection(m: IdMap, hi: nat) {
    && (forall k :: k in m ==> hi <= m[k] < hi + |m|)
    && (forall j, k :: j in m && k in m && m[j] == m[k] ==> j == k)
    && (forall v :: hi <= v < hi + |m| ==> Taken(m, v))
  }

  ghost predicate Taken(m: IdMap, v: nat) {
    exists k :: k in m && m[k] == v
  }

  predicate Extends(a: IdMap, b: IdMap) {
    forall k :: k in a ==> k in b && b[k] == a[k]
  }

  /** Registering keeps the bijection, short of overflow, and never changes an id already given. */
  lemma OneMoreTaken(m: IdMap, hi: nat, oldGuid: Id, v: nat)
    requires oldGuid !in m && hi + |m| < UINT32 && hi <= v <= hi + |m| && (v < hi + |m| ==> Taken(m, v))
    ensures Taken(m[oldGuid := hi + |m|], v)
  {
    var n := m[oldGuid := hi + |m|];
    if v == hi + |m| {
      assert n[oldGuid] == v;
    } else {
      var k :| k in m && m[k] == v;
      assert n[k] == v;
    }
  }

  lemma RegisteringKeepsBijection(m: IdMap, hi: nat, oldGuid: Id)
    requires Bijection(m, hi) && hi + |m| < UINT32
    ensures var n := Registered(m, hi, oldGuid);
            Bijection(n, hi) && Extends(m, n) && |n| <= |m| + 1 && oldGuid in n
  {
    if oldGuid !in m {
      var n := m[oldGuid := hi + |m|];
      OneMoreKey(m, oldGuid, hi + |m|);
      forall v | hi <= v < hi + |n|
        ensures Taken(n, v)
      {
        OneMoreTaken(m, hi, oldGuid, v);
      }
    }
  }

  lemma OneMoreKey(m: IdMap, oldGuid: Id, newGuid: Id)
    requires oldGuid !in m
    ensures |m[oldGuid := newGuid]| == |m| + 1
  {
    assert m[oldGuid := newGuid].Keys == m.Keys + {oldGuid};
  }
}
