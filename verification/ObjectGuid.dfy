/** Object guids: src/game/ObjectGuid.h, src/game/ObjectGuid.cpp. A guid packs the kind of an object (the
    high part), for some kinds its entry, and a counter into 64 bits; generators hand the counters out. */
module ObjectGuids {
  import opened Runs

  // ---------- bits ----------

  function Pow2(k: nat): nat {
    if k == 0 then 1 else 2 * Pow2(k - 1)
  }

  /** a | b */
  function Or(a: nat, b: nat): nat {
    if a == 0 && b == 0 then 0 else (if a % 2 == 1 || b % 2 == 1 then 1 else 0) + 2 * Or(a / 2, b / 2)
  }

  /** a << k, where nothing is shifted out */
  function Shl(a: nat, k: nat): nat {
    if k == 0 then a else 2 * Shl(a, k - 1)
  }

  /** a >> k */
  function Shr(a: nat, k: nat): nat {
    if k == 0 then a else Shr(a / 2, k - 1)
  }

  /** a & (2^k - 1) */
  function Low(a: nat, k: nat): nat {
    if k == 0 then 0 else a % 2 + 2 * Low(a / 2, k - 1)
  }

  lemma {:induction false} OrZero(b: nat)
    ensures Or(0, b) == b
  {
    if b != 0 {
      OrZero(b / 2);
    }
  }

  /** The k lowest bits of a | (b << k) are those of a, the others those of (a >> k) | b. */
  lemma {:induction false} OrShl(a: nat, b: nat, k: nat)
    ensures Low(Or(a, Shl(b, k)), k) == Low(a, k)
    ensures Shr(Or(a, Shl(b, k)), k) == Or(Shr(a, k), b)
    decreases k
  {
    if k > 0 {
      OrShl(a / 2, b, k - 1);
      var c := Shl(b, k);
      assert c % 2 == 0 && c / 2 == Shl(b, k - 1);
      assert Or(a, c) % 2 == a % 2 && Or(a, c) / 2 == Or(a / 2, c / 2);
    }
  }

  lemma {:induction false} ShlTwice(a: nat, j: nat, k: nat)
    ensures Shl(Shl(a, j), k) == Shl(a, j + k)
    decreases k
  {
    if k > 0 {
      ShlTwice(a, j, k - 1);
    }
  }

  lemma {:induction false} ShrTwice(a: nat, j: nat, k: nat)
    ensures Shr(Shr(a, j), k) == Shr(a, j + k)
    decreases j
  {
    if j > 0 {
      ShrTwice(a / 2, j - 1, k);
    }
  }

  lemma {:induction false} SmallFits(a: nat, k: nat)
    ensures Low(a, k) < Pow2(k)
    ensures a < Pow2(k) ==> Shr(a, k) == 0 && Low(a, k) == a
    decreases k
  {
    if k > 0 {
      SmallFits(a / 2, k - 1);
    }
  }

  lemma Powers()
    ensures Pow2(16) == 0x1_0000 && Pow2(24) == 0x100_0000 && Pow2(32) == 0x1_0000_0000
  {
    assert Pow2(8) == 256;
    PowerAdds(8, 8);
    PowerAdds(16, 8);
    PowerAdds(24, 8);
  }

  lemma {:induction false} PowerAdds(j: nat, k: nat)
    ensures Pow2(j + k) == Pow2(j) * Pow2(k)
    decreases k
  {
    if k > 0 {
      PowerAdds(j, k - 1);
    }
  }

  // ---------- kinds ----------

  const ITEM: nat := 0x4000
  const PLAYER: nat := 0x0000
  const DYNAMIC_OBJECT: nat := 0xF100
  const CORPSE: nat := 0xF101
  const MO_TRANSPORT: nat := 0x1FC0

  predicate HasEntry(high: nat) {
    !(high == ITEM || high == PLAYER || high == DYNAMIC_OBJECT || high == CORPSE || high == MO_TRANSPORT)
  }

  function GetMaxCounter(high: nat): nat {
    if HasEntry(high) then 0x00FF_FFFF else 0xFFFF_FFFF
  }

  // ---------- packing ----------

  function WithEntry(high: nat, entry: nat, counter: nat): nat {
    if counter != 0 then Or(Or(counter, Shl(entry, 24)), Shl(high, 48)) else 0
  }

  function WithoutEntry(high: nat, counter: nat): nat {
    if counter != 0 then Or(counter, Shl(high, 48)) else 0
  }

  function GetHigh(guid: nat): nat {
    Low(Shr(guid, 48), 16)
  }

  function GetEntry(guid: nat): nat {
    if HasEntry(GetHigh(guid)) then Low(Shr(guid, 24), 24) else 0
  }

  function GetCounter(guid: nat): nat {
    if HasEntry(GetHigh(guid)) then Low(guid, 24) else Low(guid, 32)
  }

  /** The parts come out as they were put in. */
  predicate Decodes(guid: nat, high: nat, entry: nat, counter: nat) {
    GetHigh(guid) == high && GetEntry(guid) == entry && GetCounter(guid) == counter
  }

  lemma PartsWithEntry(high: nat, entry: nat, counter: nat)
    ensures var g := Or(Or(counter, Shl(entry, 24)), Shl(high, 48));
            && Low(g, 24) == Low(counter, 24)
            && Low(Shr(g, 24), 24) == Low(Or(Shr(counter, 24), entry), 24)
            && Shr(g, 48) == Or(Shr(Or(Shr(counter, 24), entry), 24), high)
  {
    var inner := Or(counter, Shl(entry, 24));
    var g := Or(inner, Shl(high, 48));
    ShlTwice(high, 24, 24);
    OrShl(inner, Shl(high, 24), 24);
    OrShl(counter, entry, 24);
    OrShl(Shr(inner, 24), high, 24);
    ShrTwice(g, 24, 24);
  }

  lemma EmptyGuid()
    ensures GetHigh(0) == 0 && GetEntry(0) == 0 && GetCounter(0) == 0
  {
    Powers();
    SmallFits(0, 16);
    SmallFits(0, 32);
    SmallFits(0, 48);
    assert Pow2(48) > 0;
  }

  /** A guid of a kind with entries decodes exactly when its entry and its counter fit 24 bits each, and the
      counter is not 0, which makes the empty guid. */
  lemma EntryGuidsDecode(high: nat, entry: nat, counter: nat)
    requires high <= 0xFFFF && HasEntry(high)
    ensures Decodes(WithEntry(high, entry, counter), high, entry, counter)
            <==> entry <= 0xFF_FFFF && 0 < counter <= 0xFF_FFFF
  {
    Powers();
    EmptyGuid();
    PartsWithEntry(high, entry, counter);
    var g := WithEntry(high, entry, counter);
    SmallFits(g, 24);
    SmallFits(Shr(g, 24), 24);
    if entry <= 0xFF_FFFF && 0 < counter <= 0xFF_FFFF {
      SmallFits(counter, 24);
      SmallFits(entry, 24);
      SmallFits(high, 16);
      OrZero(entry);
      OrZero(high);
    }
  }

  lemma PartsWithoutEntry(high: nat, counter: nat)
    ensures var g := Or(counter, Shl(high, 48));
            Low(g, 32) == Low(counter, 32) && Shr(g, 48) == Shr(Or(Shr(counter, 32), Shl(high, 16)), 16)
  {
    var g := Or(counter, Shl(high, 48));
    ShlTwice(high, 16, 32);
    OrShl(counter, Shl(high, 16), 32);
    ShrTwice(g, 32, 16);
  }

  lemma ShlBack(a: nat, k: nat)
    ensures Shr(Shl(a, k), k) == a
  {
    OrShl(0, a, k);
    OrZero(Shl(a, k));
    OrZero(a);
    SmallFits(0, k);
    assert Pow2(k) > 0;
  }

  lemma PlainHigh(high: nat, counter: nat)
    requires high <= 0xFFFF && 0 < counter <= 0xFFFF_FFFF
    ensures GetHigh(WithoutEntry(high, counter)) == high
  {
    Powers();
    PartsWithoutEntry(high, counter);
    SmallFits(counter, 32);
    SmallFits(high, 16);
    OrZero(Shl(high, 16));
    ShlBack(high, 16);
  }

  /** Of the 32-bit counters of a kind without entries all decode but 0, which makes the empty guid: that one
      decodes for players only, whose high part is 0. */
  lemma PlainGuidsDecode(high: nat, counter: nat)
    requires high <= 0xFFFF && !HasEntry(high) && counter <= 0xFFFF_FFFF
    ensures Decodes(WithoutEntry(high, counter), high, 0, counter) <==> counter != 0 || high == PLAYER
  {
    Powers();
    EmptyGuid();
    if counter != 0 {
      PlainHigh(high, counter);
      PartsWithoutEntry(high, counter);
      SmallFits(counter, 32);
    }
  }

  /** Parts that do not overlap add up. */
  lemma {:induction false} OrAdds(a: nat, b: nat, k: nat)
    requires a < Pow2(k)
    ensures Or(a, Shl(b, k)) == a + b * Pow2(k)
    decreases k
  {
    if k == 0 {
      OrZero(b);
    } else {
      OrAdds(a / 2, b, k - 1);
      var c := Shl(b, k);
      assert c % 2 == 0 && c / 2 == Shl(b, k - 1);
      assert Or(a, c) == a % 2 + 2 * Or(a / 2, c / 2);
      Doubled(b, Pow2(k - 1));
    }
  }

  lemma Doubled(b: nat, p: nat)
    ensures 2 * (b * p) == b * (2 * p)
  {
  }

  /** Where the parts fit, a guid is their sum: the counter in the lowest bits, the entry, if any, from bit 24 on, and
      the kind from bit 48 on. */
  lemma GuidIsSum(high: nat, entry: nat, counter: nat)
    requires high <= 0xFFFF && 0 < counter <= GetMaxCounter(high)
    requires HasEntry(high) ==> entry <= 0xFF_FFFF
    ensures GuidOf(high, entry, counter) ==
            counter + (if HasEntry(high) then entry * 0x100_0000 else 0) + high * 0x1_0000_0000_0000
  {
    Powers();
    PowerAdds(24, 24);
    PowerAdds(32, 16);
    if HasEntry(high) {
      OrAdds(counter, entry, 24);
      OrAdds(counter + entry * 0x100_0000, high, 48);
    } else {
      OrAdds(counter, high, 48);
    }
  }

  /** The guid of an object: three parts for kinds with entries, two for the others. */
  function GuidOf(high: nat, entry: nat, counter: nat): nat {
    if HasEntry(high) then WithEntry(high, entry, counter) else WithoutEntry(high, counter)
  }

  /** Different counters make different guids. */
  lemma CountersTellGuidsApart(high: nat, e: nat, f: nat, c: nat, d: nat)
    requires high <= 0xFFFF && e <= 0xFF_FFFF && f <= 0xFF_FFFF
    requires 0 < c <= GetMaxCounter(high) && 0 < d <= GetMaxCounter(high) && c != d
    ensures GuidOf(high, e, c) != GuidOf(high, f, d)
  {
    if HasEntry(high) {
      EntryGuidsDecode(high, e, c);
      EntryGuidsDecode(high, f, d);
    } else {
      PlainGuidsDecode(high, c);
      PlainGuidsDecode(high, d);
    }
  }

  // ---------- handing counters out ----------

  const RANGE_SIZE: nat := 100

  /** Uint32 arithmetic. */
  function Add32(a: nat, b: nat): nat
    requires a < 0x1_0000_0000 && b <= RANGE_SIZE
  {
    if a + b < 0x1_0000_0000 then a + b else a + b - 0x1_0000_0000
  }

  class ObjectGuidGenerator {
    const high: nat
    var nextGuid: nat
    var freedGuids: seq<nat>
    /** The server has been told to stop. */
    var stopped: bool

    constructor (high: nat, start: nat)
      requires start < 0x1_0000_0000
      ensures this.high == high && nextGuid == start && freedGuids == [] && !stopped
    {
      this.high := high;
      nextGuid, freedGuids, stopped := start, [], false;
    }

    method Set(val: nat)
      modifies this`nextGuid
      ensures nextGuid == val
    {
      nextGuid := val;
    }

    method FreeGuid(guid: nat)
      modifies this`freedGuids
      ensures freedGuids == old(freedGuids) + [guid]
    {
      freedGuids := freedGuids + [guid];
    }

    /** A freed counter if there is one, the oldest first; else the next one. Near the maximum the server is
        stopped, but a counter is handed out all the same. */
    method Generate() returns (guid: nat)
      requires nextGuid < 0x1_0000_0000
      modifies this
      ensures nextGuid < 0x1_0000_0000
      ensures old(freedGuids) != [] ==>
                guid == old(freedGuids)[0] && freedGuids == old(freedGuids)[1..]
                && nextGuid == old(nextGuid) && stopped == old(stopped)
      ensures old(freedGuids) == [] ==>
                guid == old(nextGuid) && nextGuid == Add32(old(nextGuid), 1) && freedGuids == []
                && stopped == (old(stopped) || old(nextGuid) >= GetMaxCounter(high) - 1)
    {
      if freedGuids != [] {
        guid := freedGuids[0];
        freedGuids := freedGuids[1..];
        return;
      }
      if nextGuid >= GetMaxCounter(high) - 1 {
        stopped := true;
      }
      guid := nextGuid;
      nextGuid := Add32(nextGuid, 1);
    }

    method GenerateRange() returns (first: nat, last: nat)
      requires nextGuid < 0x1_0000_0000
      modifies this
      ensures nextGuid < 0x1_0000_0000 && freedGuids == old(freedGuids)
      ensures first == old(nextGuid) && last == nextGuid == Add32(old(nextGuid), RANGE_SIZE)
      ensures stopped == (old(stopped) || old(nextGuid) >= GetMaxCounter(high) - RANGE_SIZE)
    {
      if nextGuid >= GetMaxCounter(high) - RANGE_SIZE {
        stopped := true;
      }
      first := nextGuid;
      nextGuid := Add32(nextGuid, RANGE_SIZE);
      last := nextGuid;
    }
  }

  // ---------- runs ----------

  /** A generator, and the counters in use. */
  datatype State = State(high: nat, next: nat, freed: seq<nat>, live: set<nat>, stopped: bool)

  datatype Call = Generated(guid: nat) | Ranged(first: nat, last: nat) | Freed(guid: nat)

  predicate Between(first: nat, g: nat, last: nat) {
    first <= g < last
  }

  ghost function Range(first: nat, last: nat): set<nat> {
    set g: nat | g < last && Between(first, g, last)
  }

  /** One call; only counters in use are freed. */
  ghost predicate Does(a: State, b: State, c: Call) {
    && b.high == a.high
    && match c
       case Generated(guid) =>
         && b.live == a.live + {guid}
         && (if a.freed != [] then
               guid == a.freed[0] && b.freed == a.freed[1..] && b.next == a.next && b.stopped == a.stopped
             else
               guid == a.next && a.next < 0x1_0000_0000 && b.next == Add32(a.next, 1) && b.freed == []
               && b.stopped == (a.stopped || a.next >= GetMaxCounter(a.high) - 1))
       case Ranged(first, last) =>
         && a.next < 0x1_0000_0000 && first == a.next && last == b.next == Add32(a.next, RANGE_SIZE)
         && b.freed == a.freed
         && b.live == a.live + Range(first, last)
         && b.stopped == (a.stopped || a.next >= GetMaxCounter(a.high) - RANGE_SIZE)
       case Freed(guid) =>
         guid in a.live && b == a.(freed := a.freed + [guid], live := a.live - {guid})
  }

  /** Every counter below the next one is in use or waiting to be used again, and not both. */
  ghost predicate Sound(s: State) {
    && 0 < s.next < GetMaxCounter(s.high)
    && (forall g :: g in s.live ==> 0 < g < s.next && g !in s.freed)
    && (forall k :: 0 <= k < |s.freed| ==> 0 < s.freed[k] < s.next)
    && (forall j, k :: 0 <= j < k < |s.freed| ==> s.freed[j] != s.freed[k])
  }

  /** As long as the server need not stop: what a call hands out is not in use, not zero, and can be packed. */
  ghost predicate FreshCall(a: State, c: Call) {
    match c
    case Generated(guid) => guid !in a.live && 0 < guid <= GetMaxCounter(a.high)
    case Ranged(first, last) =>
      last == first + RANGE_SIZE &&
      forall g: nat :: first <= g < last ==> g !in a.live && 0 < g <= GetMaxCounter(a.high)
    case Freed(_) => true
  }

  lemma GenerateIsFresh(a: State, b: State, guid: nat)
    requires Sound(a) && Does(a, b, Generated(guid)) && !b.stopped
    ensures FreshCall(a, Generated(guid)) && Sound(b)
  {
    assert a.freed != [] ==> a.freed[0] in a.freed;
    if a.freed != [] {
      assert forall k :: 0 <= k < |b.freed| ==> b.freed[k] == a.freed[k + 1];
      assert guid !in b.freed;
    }
  }

  lemma RangeIsFresh(a: State, b: State, first: nat, last: nat)
    requires Sound(a) && Does(a, b, Ranged(first, last)) && !b.stopped
    ensures FreshCall(a, Ranged(first, last)) && Sound(b)
  {
  }

  lemma FreeingKeepsSound(a: State, b: State, guid: nat)
    requires Sound(a) && Does(a, b, Freed(guid))
    ensures Sound(b)
  {
  }

  lemma CallsAreFresh(a: State, b: State, c: Call)
    requires Sound(a) && Does(a, b, c) && !b.stopped
    ensures FreshCall(a, c) && Sound(b)
  {
    match c
    case Generated(guid) => GenerateIsFresh(a, b, guid);
    case Ranged(first, last) => RangeIsFresh(a, b, first, last);
    case Freed(guid) => FreeingKeepsSound(a, b, guid);
  }

  ghost predicate Step(a: State, b: State) {
    exists c :: Does(a, b, c)
  }

  ghost function StepRelation(): (State, State) -> bool {
    (a: State, b: State) => Step(a, b)
  }

  ghost function SoundRelation(): (State, State) -> bool {
    (a: State, b: State) => a.high == b.high && (Sound(a) && !b.stopped ==> Sound(b) && !a.stopped)
  }

  lemma StaysSound(run: seq<State>, i: nat, j: nat)
    requires IsRun(run, StepRelation()) && i <= j < |run| && Sound(run[i]) && !run[j].stopped
    ensures Sound(run[j]) && run[j].high == run[i].high
  {
    var step, kept := StepRelation(), SoundRelation();
    forall a, b, c | kept(a, b) && step(b, c)
      ensures kept(a, c)
    {
      var call :| Does(b, c, call);
      if Sound(b) && !c.stopped {
        CallsAreFresh(b, c, call);
      }
    }
    Along(run, step, kept, i, j);
  }

  /** In every run that starts with nothing handed out and never has to stop, no counter is issued while it
      is in use, every counter is between 1 and the maximum, and a range is a hundred counters in a row. */
  lemma NoCounterTwice(high: nat, start: nat, run: seq<State>, i: nat, c: Call)
    requires run != [] && run[0] == State(high, start, [], {}, false) && 0 < start < GetMaxCounter(high)
    requires IsRun(run, StepRelation()) && i + 1 < |run| && !run[i + 1].stopped
    requires Does(run[i], run[i + 1], c)
    ensures FreshCall(run[i], c)
  {
    assert Sound(run[0]);
    assert !run[i].stopped;
    StaysSound(run, 0, i);
    CallsAreFresh(run[i], run[i + 1], c);
  }

  /** So any two objects of one kind in use at the same time have different guids. */
  lemma LiveGuidsDiffer(high: nat, start: nat, run: seq<State>, i: nat, c: nat, d: nat, e: nat, f: nat)
    requires run != [] && run[0] == State(high, start, [], {}, false) && 0 < start < GetMaxCounter(high)
    requires IsRun(run, StepRelation()) && i < |run| && !run[i].stopped
    requires high <= 0xFFFF && e <= 0xFF_FFFF && f <= 0xFF_FFFF
    requires c in run[i].live && d in run[i].live && c != d
    ensures GuidOf(high, e, c) != GuidOf(high, f, d)
    ensures Decodes(GuidOf(high, e, c), high, if HasEntry(high) then e else 0, c)
  {
    StaysSound(run, 0, i);
    CountersTellGuidsApart(high, e, f, c, d);
    if HasEntry(high) {
      EntryGuidsDecode(high, e, c);
    } else {
      PlainGuidsDecode(high, c);
    }
  }
}
