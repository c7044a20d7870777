/** Small things several modules share. */
module Basics {
  datatype Option<+T> = None | Some(value: T)

  function Min(a: nat, b: nat): nat { if a <= b then a else b }

  lemma MulMono(x: nat, y: nat, b: nat)
    requires x <= y
    ensures x * b <= y * b
  {
  }

  ghost predicate NoDup<T>(xs: seq<T>) {
    forall i, j :: 0 <= i < j < |xs| ==> xs[i] != xs[j]
  }

  lemma NoDupJoin<T>(xs: seq<T>, ys: seq<T>)
    requires NoDup(xs) && NoDup(ys) && forall x :: x in xs ==> x !in ys
    ensures NoDup(xs + ys)
  {
    forall i, j | 0 <= i < |xs| && 0 <= j < |ys| ensures xs[i] != ys[j] {
      assert xs[i] in xs;
    }
  }

  lemma NoDupParts<T>(a: seq<T>, b: seq<T>)
    requires NoDup(a + b)
    ensures NoDup(a) && NoDup(b) && forall x :: x in a ==> x !in b
  {
    forall i, j | 0 <= i < |a| && 0 <= j < |b| ensures a[i] != b[j] {
      assert (a + b)[i] != (a + b)[|a| + j];
    }
    forall i, j | 0 <= i < j < |b| ensures b[i] != b[j] {
      assert (a + b)[|a| + i] != (a + b)[|a| + j];
    }
    forall i, j | 0 <= i < j < |a| ensures a[i] != a[j] {
      assert (a + b)[i] != (a + b)[j];
    }
  }

  /** xs with the first p taken out. */
  function Without(xs: seq<nat>, p: nat): seq<nat> {
    if xs == [] then [] else if xs[0] == p then xs[1..] else [xs[0]] + Without(xs[1..], p)
  }

  lemma {:induction false} WithoutDrops(xs: seq<nat>, p: nat)
    requires NoDup(xs)
    ensures NoDup(Without(xs, p)) && |Without(xs, p)| == if p in xs then |xs| - 1 else |xs|
    ensures forall q :: q in Without(xs, p) <==> q in xs && q != p
  {
    if xs != [] && xs[0] != p {
      WithoutDrops(xs[1..], p);
      var r := Without(xs[1..], p);
      assert xs[0] !in r;
      assert xs == [xs[0]] + xs[1..];
    }
  }
}
