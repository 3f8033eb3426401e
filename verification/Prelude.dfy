/** Result types and byte strings shared by the models of the individual components. */
module Prelude {

  datatype Option<+T> = None | Some(value: T)

  datatype Result<+T> = Ok(value: T) | Err(error: string)

  newtype byte = x: int | 0 <= x < 256

  type bytes = seq<byte>

  predicate Distinct<T(==)>(xs: seq<T>) {
    forall i, j :: 0 <= i < j < |xs| ==> xs[i] != xs[j]
  }

  /** Two sequences holding the same elements, the same number of times. */
  ghost predicate IsPermutation<T>(xs: seq<T>, ys: seq<T>) {
    multiset(xs) == multiset(ys)
  }

  lemma PermutationMembers<T>(xs: seq<T>, ys: seq<T>)
    requires IsPermutation(xs, ys)
    ensures |xs| == |ys|
    ensures forall x :: x in xs <==> x in ys
  {
    assert |multiset(xs)| == |xs| && |multiset(ys)| == |ys|;
    assert forall x :: x in multiset(xs) <==> x in xs;
    assert forall x :: x in multiset(ys) <==> x in ys;
  }

  lemma RepeatedMultiplicity<T>(xs: seq<T>, i: nat, j: nat)
    requires i < j < |xs| && xs[i] == xs[j]
    ensures multiset(xs)[xs[i]] >= 2
  {
    assert xs == xs[..j] + xs[j..];
    assert xs[i] in xs[..j] && xs[j] in xs[j..];
    assert multiset(xs) == multiset(xs[..j]) + multiset(xs[j..]);
  }

  lemma RepeatedPositions<T>(xs: seq<T>, x: T)
    requires multiset(xs)[x] >= 2
    ensures exists i, j :: 0 <= i < j < |xs| && xs[i] == x && xs[j] == x
  {
    assert x in multiset(xs);
    var i :| 0 <= i < |xs| && xs[i] == x;
    assert xs == xs[..i] + [x] + xs[i+1..];
    assert multiset(xs) == multiset(xs[..i]) + multiset{x} + multiset(xs[i+1..]);
    if x in xs[..i] {
      var j :| 0 <= j < i && xs[j] == x;
    } else {
      assert x in multiset(xs[i+1..]);
      var j :| 0 <= j < |xs[i+1..]| && xs[i+1..][j] == x;
      assert xs[i+1+j] == x;
    }
  }

  ghost predicate Pairwise<T>(xs: seq<T>, ok: (T, T) -> bool) {
    forall i, j :: 0 <= i < j < |xs| ==> ok(xs[i], xs[j])
  }

  /** What holds of every two entries of a list, whichever comes first, survives reordering. */
  lemma PairwiseReordered<T(!new)>(xs: seq<T>, ys: seq<T>, ok: (T, T) -> bool)
    requires IsPermutation(xs, ys) && Pairwise(xs, ok)
    requires forall a, b :: ok(a, b) ==> ok(b, a)
    ensures Pairwise(ys, ok)
  {
    PermutationMembers(xs, ys);
    forall i, j | 0 <= i < j < |ys| ensures ok(ys[i], ys[j]) {
      if ys[i] == ys[j] {
        RepeatedMultiplicity(ys, i, j);
        RepeatedPositions(xs, ys[i]);
      } else {
        assert ys[i] in xs && ys[j] in xs;
        var a :| 0 <= a < |xs| && xs[a] == ys[i];
        var b :| 0 <= b < |xs| && xs[b] == ys[j];
        assert a < b || b < a;
      }
    }
  }

  lemma PermutationDistinct<T(!new)>(xs: seq<T>, ys: seq<T>)
    requires IsPermutation(xs, ys) && Distinct(xs)
    ensures Distinct(ys)
  {
    PairwiseReordered(xs, ys, (a, b) => a != b);
  }

  function Mapped<T, U>(xs: seq<T>, f: T -> U): (r: seq<U>)
    ensures |r| == |xs| && forall i :: 0 <= i < |r| ==> r[i] == f(xs[i])
  {
    seq(|xs|, i requires 0 <= i < |xs| => f(xs[i]))
  }

  lemma WithoutOne<T>(ys: seq<T>, j: nat)
    requires j < |ys|
    ensures multiset(ys) == multiset(ys[..j] + ys[j + 1..]) + multiset{ys[j]}
  {
    assert ys == ys[..j] + [ys[j]] + ys[j + 1..];
    assert multiset(ys[..j] + ys[j + 1..]) == multiset(ys[..j]) + multiset(ys[j + 1..]);
  }

  lemma MappedWithoutOne<T, U>(ys: seq<T>, j: nat, f: T -> U)
    requires j < |ys|
    ensures multiset(Mapped(ys, f)) == multiset(Mapped(ys[..j] + ys[j + 1..], f)) + multiset{f(ys[j])}
  {
    var zs := Mapped(ys, f);
    assert Mapped(ys[..j] + ys[j + 1..], f) == zs[..j] + zs[j + 1..];
    WithoutOne(zs, j);
  }

  lemma CancelOne<T>(a: multiset<T>, b: multiset<T>, x: T)
    requires a + multiset{x} == b + multiset{x}
    ensures a == b
  {
    assert a == (a + multiset{x}) - multiset{x};
    assert b == (b + multiset{x}) - multiset{x};
  }

  lemma HeadElsewhere<T>(xs: seq<T>, ys: seq<T>) returns (j: nat)
    requires IsPermutation(xs, ys) && xs != []
    ensures j < |ys| && ys[j] == xs[0] && IsPermutation(xs[1..], ys[..j] + ys[j + 1..])
  {
    PermutationMembers(xs, ys);
    assert xs[0] in ys;
    j :| 0 <= j < |ys| && ys[j] == xs[0];
    WithoutOne(xs, 0);
    WithoutOne(ys, j);
    assert xs[..0] + xs[1..] == xs[1..];
    CancelOne(multiset(xs[1..]), multiset(ys[..j] + ys[j + 1..]), xs[0]);
  }

  lemma MappedHead<T, U>(xs: seq<T>, f: T -> U)
    requires xs != []
    ensures multiset(Mapped(xs, f)) == multiset(Mapped(xs[1..], f)) + multiset{f(xs[0])}
  {
    var zs := Mapped(xs, f);
    assert zs == [zs[0]] + zs[1..] && Mapped(xs[1..], f) == zs[1..];
  }

  /** Mapping a function over two arrangements of the same elements gives two arrangements again. */
  lemma {:induction false} MappedPermutation<T, U>(xs: seq<T>, ys: seq<T>, f: T -> U)
    requires IsPermutation(xs, ys)
    ensures IsPermutation(Mapped(xs, f), Mapped(ys, f))
    decreases |xs|
  {
    if xs == [] {
      PermutationMembers(xs, ys);
      assert ys == [];
    } else {
      var j := HeadElsewhere(xs, ys);
      var tail, rest := xs[1..], ys[..j] + ys[j + 1..];
      MappedPermutation(tail, rest, f);
      MappedHead(xs, f);
      MappedWithoutOne(ys, j, f);
    }
  }
}
