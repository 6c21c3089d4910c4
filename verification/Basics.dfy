/** Types and notions that several models share. */
module Basics {

  datatype Option<T> = None | Some(value: T)

  type Uint8 = n: nat | n < 256

  /** What an integer becomes as an unsigned byte: every 256 is lost. */
  function Byte(n: int): Uint8
    decreases if n < 0 then 0 - n else n
  {
    if n < 0 - 256 then Byte(n + 256) else if n < 0 then n + 256 else if n < 256 then n else Byte(n - 256)
  }

  ghost predicate Distinct<T>(s: seq<T>) {
    forall i, j :: 0 <= i < j < |s| ==> s[i] != s[j]
  }

  lemma Associate<T>(a: seq<T>, b: seq<T>, c: seq<T>)
    ensures a + b + c == a + (b + c)
  {
  }

  lemma {:induction false} SubsetFits<T>(a: set<T>, b: set<T>)
    requires a <= b
    ensures |a| <= |b|
  {
    if a != {} {
      var x :| x in a;
      SubsetFits(a - {x}, b - {x});
    }
  }
}
