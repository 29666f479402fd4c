/** Rearrangements of sequences, compared as multisets. */
module Permutations {

  /** Two arrangements of one multiset: the head of the first sits somewhere in the second. */
  lemma {:induction false} CutOut<T>(a: seq<T>, b: seq<T>) returns (b1: seq<T>, b2: seq<T>)
    requires multiset(a) == multiset(b) && |a| > 0
    ensures b == b1 + [a[0]] + b2
    ensures multiset(a[1..]) == multiset(b1 + b2)
  {
    assert a[0] in multiset(a);
    var i :| 0 <= i < |b| && b[i] == a[0];
    b1, b2 := b[..i], b[i + 1..];
    assert b == b1 + [a[0]] + b2;
    assert a == [a[0]] + a[1..];
    assert multiset(a) == multiset{a[0]} + multiset(a[1..]);
    assert multiset(b) == multiset(b1) + multiset{a[0]} + multiset(b2);
    assert multiset(a[1..]) == multiset(a) - multiset{a[0]} == multiset(b1) + multiset(b2);
  }

  lemma {:induction false} SameTail<T>(a: seq<T>, b: seq<T>)
    requires multiset(a) == multiset(b) && |a| > 0 && |b| > 0 && a[0] == b[0]
    ensures multiset(a[1..]) == multiset(b[1..])
  {
    assert a == [a[0]] + a[1..] && b == [a[0]] + b[1..];
    assert multiset(a[1..]) == multiset(a) - multiset{a[0]} == multiset(b[1..]);
  }

  function MapSeq<T, U>(f: T -> U, s: seq<T>): (r: seq<U>)
    ensures |r| == |s|
    ensures forall i :: 0 <= i < |s| ==> r[i] == f(s[i])
  {
    seq(|s|, i requires 0 <= i < |s| => f(s[i]))
  }

  lemma {:induction false} MapSplit<T, U>(f: T -> U, a: seq<T>, x: T, b: seq<T>)
    ensures MapSeq(f, a + [x] + b) == MapSeq(f, a) + [f(x)] + MapSeq(f, b)
  {
  }

  lemma {:induction false} MapConcat<T, U>(f: T -> U, a: seq<T>, b: seq<T>)
    ensures MapSeq(f, a + b) == MapSeq(f, a) + MapSeq(f, b)
  {
  }

  lemma {:induction false} SameElements<T>(a: seq<T>, b: seq<T>)
    requires multiset(a) == multiset(b)
    ensures |a| == |b| && forall x :: x in a <==> x in b
  {
    assert |a| == |multiset(a)| == |multiset(b)| == |b|;
    forall x ensures x in a <==> x in b {
      assert x in a <==> x in multiset(a);
      assert x in b <==> x in multiset(b);
    }
  }

  /** Mapping a function over two arrangements of one multiset gives two arrangements of one multiset. */
  lemma {:induction false} MapPermutation<T, U>(f: T -> U, a: seq<T>, b: seq<T>)
    requires multiset(a) == multiset(b)
    ensures multiset(MapSeq(f, a)) == multiset(MapSeq(f, b))
  {
    SameElements(a, b);
    if |a| > 0 {
      var b1, b2 := CutOut(a, b);
      MapPermutation(f, a[1..], b1 + b2);
      assert a == [] + [a[0]] + a[1..];
      MapSplit(f, [], a[0], a[1..]);
      MapSplit(f, b1, a[0], b2);
      MapConcat(f, b1, b2);
    }
  }

  /** Any arrangement of the images is the image of an arrangement. */
  lemma {:induction false} LiftArrangement<T, U>(f: T -> U, a: seq<T>, ys: seq<U>) returns (b: seq<T>)
    requires multiset(ys) == multiset(MapSeq(f, a))
    ensures multiset(b) == multiset(a)
    ensures MapSeq(f, b) == ys
  {
    SameElements(ys, MapSeq(f, a));
    if |ys| == 0 {
      b := [];
    } else {
      var i := Preimage(f, a, ys[0]);
      var a1, x, a2 := a[..i], a[i], a[i + 1..];
      assert a == a1 + [x] + a2;
      var r := MoveToFront(f, a1, x, a2);
      SameTail(r, ys);
      var tail := LiftArrangement(f, a1 + a2, ys[1..]);
      b := PutBack(f, a1, x, a2, tail);
      assert ys == [ys[0]] + ys[1..];
    }
  }

  lemma {:induction false} Preimage<T, U>(f: T -> U, a: seq<T>, y: U) returns (i: nat)
    requires y in MapSeq(f, a)
    ensures i < |a| && f(a[i]) == y
  {
    i :| 0 <= i < |a| && MapSeq(f, a)[i] == y;
  }

  lemma {:induction false} PutBack<T, U>(f: T -> U, a1: seq<T>, x: T, a2: seq<T>, tail: seq<T>) returns (b: seq<T>)
    requires multiset(tail) == multiset(a1 + a2)
    ensures multiset(b) == multiset(a1 + [x] + a2)
    ensures MapSeq(f, b) == [f(x)] + MapSeq(f, tail)
  {
    b := [x] + tail;
    MapConcat(f, [x], tail);
  }

  lemma {:induction false} MoveToFront<T, U>(f: T -> U, a1: seq<T>, x: T, a2: seq<T>) returns (r: seq<U>)
    ensures |r| > 0 && r[0] == f(x) && r[1..] == MapSeq(f, a1 + a2)
    ensures multiset(r) == multiset(MapSeq(f, a1 + [x] + a2))
  {
    MapSplit(f, a1, x, a2);
    MapConcat(f, a1, a2);
    r := [f(x)] + MapSeq(f, a1 + a2);
  }

  ghost predicate Distinct<T>(s: seq<T>) {
    forall i, j :: 0 <= i < j < |s| ==> s[i] != s[j]
  }

  lemma {:induction false} CountDistinct<T>(a: seq<T>, k: T)
    requires Distinct(a)
    ensures multiset(a)[k] == if k in a then 1 else 0
  {
    if |a| > 0 {
      assert a == [a[0]] + a[1..];
      CountDistinct(a[1..], k);
    }
  }

  lemma {:induction false} DistinctPermutation<T>(a: seq<T>, b: seq<T>)
    requires forall k :: k in a <==> k in b
    requires Distinct(a) && Distinct(b)
    ensures multiset(a) == multiset(b)
  {
    forall k ensures multiset(a)[k] == multiset(b)[k] {
      CountDistinct(a, k);
      CountDistinct(b, k);
    }
  }

  lemma {:induction false} CutTwo<T>(b: seq<T>, i: nat, j: nat)
    requires i < j < |b|
    ensures b == b[..i] + [b[i]] + b[i + 1..j] + [b[j]] + b[j + 1..]
  {
  }

  lemma {:induction false} TwiceCounts<T>(b: seq<T>, i: nat, j: nat)
    requires i < j < |b|
    ensures b[i] == b[j] ==> multiset(b)[b[i]] >= 2
  {
    CutTwo(b, i, j);
  }

  lemma {:induction false} PermutationDistinct<T>(a: seq<T>, b: seq<T>)
    requires Distinct(a) && multiset(a) == multiset(b)
    ensures Distinct(b)
  {
    forall i, j | 0 <= i < j < |b| ensures b[i] != b[j] {
      CountDistinct(a, b[i]);
      TwiceCounts(b, i, j);
    }
  }
}
