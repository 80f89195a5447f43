/** Values shared by every component: optional and fallible results, and the 64-bit
    unsigned arithmetic the source uses. */
module Prelude {

  datatype Option<+T> = None | Some(value: T)

  datatype Result<+T, +E> = Success(value: T) | Failure(error: E)

  const U64_MAX: int := 0xFFFF_FFFF_FFFF_FFFF

  type U64 = x: int | 0 <= x <= U64_MAX

  /** `u64::saturating_add`. */
  function SaturatingAdd(a: U64, b: U64): U64 {
    if a + b <= U64_MAX then a + b else U64_MAX
  }

  /** `u64::saturating_sub`. */
  function SaturatingSub(a: U64, b: U64): U64 {
    if b <= a then a - b else 0
  }

  /** `u64::wrapping_add(1)`, which is what `+ 1` compiles to in a release build. */
  function WrappingSucc(a: U64): U64 {
    if a == U64_MAX then 0 else a + 1
  }

  /** The cast of a length to `u64`. */
  function Wrap(n: nat): U64 {
    if n <= U64_MAX then n else Wrap(n - (U64_MAX + 1))
  }

  lemma {:induction false} WrapStep(n: nat)
    ensures Wrap(n + 1) == WrappingSucc(Wrap(n))
  {
    if n > U64_MAX {
      WrapStep(n - (U64_MAX + 1));
    }
  }

  /** Casting keeps the low 64 bits. */
  lemma {:induction false} WrapIsRemainder(n: nat)
    ensures Wrap(n) == n % (U64_MAX + 1)
  {
    if n > U64_MAX {
      WrapIsRemainder(n - (U64_MAX + 1));
    }
  }

  ghost predicate Unrepeated<T>(s: seq<T>) {
    forall i, j :: 0 <= i < j < |s| ==> s[i] != s[j]
  }

  lemma PrefixTransitive<T>(a: seq<T>, b: seq<T>, c: seq<T>)
    requires a <= b <= c
    ensures a <= c
  {
  }

  /** A finite set that contains another of the same size is that set. */
  lemma SubsetOfSameSize<T>(small: set<T>, big: set<T>)
    requires small <= big && |small| == |big|
    ensures small == big
  {
    assert big == small + (big - small);
    assert |big| == |small| + |big - small|;
    assert big - small == {};
  }

  lemma PickAny<T>(s: set<T>) returns (x: T)
    requires s != {}
    ensures x in s
  {
    x :| x in s;
  }

  /** A map that is injective on `keys` takes them to as many values. */
  lemma {:induction false} InjectiveImageSize(keys: set<int>, m: map<int, int>, image: set<int>)
    requires keys <= m.Keys && forall j, k :: j in keys && k in keys && j != k ==> m[j] != m[k]
    requires forall v :: v in image <==> exists k :: k in keys && m[k] == v
    ensures |image| == |keys|
  {
    if keys == {} {
      if image != {} {
        var v := PickAny(image);
        assert false;
      }
    } else {
      var k := PickAny(keys);
      var v := m[k];
      assert exists j :: j in keys && m[j] == v;
      forall v | v in image - {m[k]} ensures exists j :: j in keys - {k} && m[j] == v {
        var j :| j in keys && m[j] == v;
        assert j in keys - {k};
      }
      InjectiveImageSize(keys - {k}, m, image - {m[k]});
    }
  }
}
