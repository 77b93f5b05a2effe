/** Machine words, bounds and the small wrappers every component shares. */
module Words {

  const U8: nat := 0x100
  const U16: nat := 0x1_0000
  const U32: nat := 0x1_0000_0000
  const U64: nat := 0x1_0000_0000_0000_0000

  type u8 = n: nat | n < U8
  type u16 = n: nat | n < U16
  type u32 = n: nat | n < U32
  type u64 = n: nat | n < U64

  datatype Option<+T> = None | Some(value: T)

  type Bytes = seq<u8>

  predicate NoDup<X(==)>(s: seq<X>) {
    forall i, j | 0 <= i < j < |s| :: s[i] != s[j]
  }

  // --- counting ---

  ghost function Elements<X>(s: seq<X>): set<X> {
    set x | x in s
  }

  function Below(n: nat): (s: set<nat>)
    ensures |s| == n && forall i: nat :: i in s <==> i < n
  {
    if n == 0 then {} else Below(n - 1) + {n - 1}
  }

  lemma {:induction false} SubsetSize<X>(a: set<X>, b: set<X>)
    requires a <= b
    ensures |a| <= |b|
  {
    if a != {} {
      var x :| x in a;
      SubsetSize(a - {x}, b - {x});
    }
  }

  lemma SameSize<X>(a: set<X>, b: set<X>)
    requires a <= b && |a| == |b|
    ensures a == b
  {
    forall x | x in b ensures x in a {
      if x !in a {
        SubsetSize(a, b - {x});
      }
    }
  }

  lemma {:induction false} NoDupSize<X>(s: seq<X>)
    requires NoDup(s)
    ensures |Elements(s)| == |s|
  {
    if s != [] {
      var front, last := s[..|s| - 1], s[|s| - 1];
      NoDupSize(front);
      assert Elements(s) == Elements(front) + {last};
      assert last !in Elements(front);
    }
  }

  lemma NoDupInside<X>(s: seq<X>, b: set<X>)
    requires NoDup(s) && forall x <- s :: x in b
    ensures |s| <= |b|
  {
    NoDupSize(s);
    SubsetSize(Elements(s), b);
  }
}
