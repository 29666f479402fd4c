/**
 The string helpers of the Go standard library that the modelled packages lean on:
 strings.Split, strings.Join, strings.HasPrefix and the byte-wise order behind sort.Strings.
 */
module Strings {
  import opened Permutations

  predicate HasPrefix(s: string, prefix: string) {
    prefix <= s
  }

  predicate OccursAt(s: string, sep: string, i: int) {
    0 <= i <= |s| - |sep| && s[i..i + |sep|] == sep
  }

  ghost predicate Contains(s: string, sep: string) {
    exists i :: OccursAt(s, sep, i)
  }

  /** strings.Index from a given position: the first occurrence of `sep` at or after `from`, or -1. */
  function IndexFrom(s: string, sep: string, from: nat): (i: int)
    requires from <= |s|
    ensures i == -1 || (from <= i && OccursAt(s, sep, i))
    ensures i == -1 ==> forall j :: from <= j ==> !OccursAt(s, sep, j)
    ensures i != -1 ==> forall j :: from <= j < i ==> !OccursAt(s, sep, j)
    decreases |s| - from
  {
    if OccursAt(s, sep, from) then from
    else if from == |s| then -1
    else IndexFrom(s, sep, from + 1)
  }

  /** strings.Split with a non-empty separator: never empty, left to right, non-overlapping. */
  function Split(s: string, sep: string): (parts: seq<string>)
    requires |sep| > 0
    ensures |parts| > 0
    decreases |s|
  {
    var i := IndexFrom(s, sep, 0);
    if i == -1 then [s] else [s[..i]] + Split(s[i + |sep|..], sep)
  }

  function Join(parts: seq<string>, sep: string): string {
    if |parts| == 0 then ""
    else if |parts| == 1 then parts[0]
    else parts[0] + sep + Join(parts[1..], sep)
  }

  /** Join undoes Split. */
  lemma {:induction false} JoinSplit(s: string, sep: string)
    requires |sep| > 0
    ensures Join(Split(s, sep), sep) == s
    decreases |s|
  {
    var i := IndexFrom(s, sep, 0);
    if i != -1 {
      JoinSplit(s[i + |sep|..], sep);
      var rest := Split(s[i + |sep|..], sep);
      assert ([s[..i]] + rest)[1..] == rest;
      assert s == s[..i] + sep + s[i + |sep|..];
    }
  }

  /** Splitting at a known first occurrence. */
  lemma {:induction false} SplitFirst(a: string, sep: string, b: string)
    requires |sep| > 0
    requires forall j :: 0 <= j < |a| ==> !OccursAt(a + sep + b, sep, j)
    ensures Split(a + sep + b, sep) == [a] + Split(b, sep)
  {
    var s := a + sep + b;
    assert s[|a|..|a| + |sep|] == sep;
    assert OccursAt(s, sep, |a|);
    var i := IndexFrom(s, sep, 0);
    assert i == |a|;
    assert s[..i] == a && s[i + |sep|..] == b;
  }

  /** A string without the separator is its own only part. */
  lemma {:induction false} SplitNone(s: string, sep: string)
    requires |sep| > 0
    requires !Contains(s, sep)
    ensures Split(s, sep) == [s]
  {
  }

  lemma {:induction false} OneCharOccurs(s: string, c: char, i: int)
    ensures OccursAt(s, [c], i) <==> 0 <= i < |s| && s[i] == c
  {
    if 0 <= i < |s| {
      assert s[i..i + 1] == [s[i]];
    }
  }

  lemma {:induction false} SplitFirstChar(a: string, c: char, b: string)
    requires c !in a
    ensures Split(a + [c] + b, [c]) == [a] + Split(b, [c])
  {
    var s := a + [c] + b;
    forall j | 0 <= j < |a| ensures !OccursAt(s, [c], j) {
      OneCharOccurs(s, c, j);
      assert s[j] == a[j];
    }
    SplitFirst(a, [c], b);
  }

  lemma {:induction false} NoCharSplit(s: string, c: char)
    requires c !in s
    ensures Split(s, [c]) == [s]
  {
    forall j ensures !OccursAt(s, [c], j) {
      OneCharOccurs(s, c, j);
    }
    SplitNone(s, [c]);
  }

  /** The first occurrence of a character cuts the string in two. */
  lemma {:induction false} CutAtFirst(s: string, c: char) returns (a: string, b: string)
    requires c in s
    ensures s == a + [c] + b && c !in a
  {
    if s[0] == c {
      a, b := "", s[1..];
    } else {
      a, b := CutAtFirst(s[1..], c);
      a := [s[0]] + a;
    }
  }

  /** With a one-character separator, Split distributes over a separator anywhere in the string. */
  lemma {:induction false} SplitConcat(a: string, c: char, b: string)
    ensures Split(a + [c] + b, [c]) == Split(a, [c]) + Split(b, [c])
    decreases |a|
  {
    if c !in a {
      NoCharSplit(a, c);
      SplitFirstChar(a, c, b);
    } else {
      var a0, a1 := CutAtFirst(a, c);
      var t := a1 + [c] + b;
      calc {
        Split(a + [c] + b, [c]);
        { assert a + [c] + b == a0 + [c] + t; }
        Split(a0 + [c] + t, [c]);
        { SplitFirstChar(a0, c, t); }
        [a0] + Split(t, [c]);
        { SplitConcat(a1, c, b); }
        [a0] + (Split(a1, [c]) + Split(b, [c]));
        [a0] + Split(a1, [c]) + Split(b, [c]);
        { SplitFirstChar(a0, c, a1); }
        Split(a, [c]) + Split(b, [c]);
      }
    }
  }

  lemma {:induction false} PartsHaveNoSep(s: string, c: char)
    ensures forall p :: p in Split(s, [c]) ==> c !in p
    decreases |s|
  {
    if c !in s {
      NoCharSplit(s, c);
    } else {
      var a, b := CutAtFirst(s, c);
      SplitFirstChar(a, c, b);
      PartsHaveNoSep(b, c);
    }
  }

  /** Split undoes Join when no part contains the separator. */
  lemma {:induction false} SplitJoin(parts: seq<string>, c: char)
    requires |parts| > 0
    requires forall p :: p in parts ==> c !in p
    ensures Split(Join(parts, [c]), [c]) == parts
  {
    NoCharSplit(parts[0], c);
    if |parts| > 1 {
      SplitConcat(parts[0], c, Join(parts[1..], [c]));
      SplitJoin(parts[1..], c);
      assert parts == [parts[0]] + parts[1..];
    }
  }

  // ----- the byte-wise string order and sort.Strings -----

  predicate Leq(a: string, b: string) {
    |a| == 0 || (|b| > 0 && (a[0] < b[0] || (a[0] == b[0] && Leq(a[1..], b[1..]))))
  }

  lemma {:induction false} LeqReflexive(a: string)
    ensures Leq(a, a)
  {
    if |a| > 0 {
      LeqReflexive(a[1..]);
    }
  }

  lemma {:induction false} LeqTransitive(a: string, b: string, c: string)
    requires Leq(a, b) && Leq(b, c)
    ensures Leq(a, c)
  {
    if |a| > 0 && a[0] == b[0] == c[0] {
      LeqTransitive(a[1..], b[1..], c[1..]);
    }
  }

  lemma {:induction false} LeqAntisymmetric(a: string, b: string)
    requires Leq(a, b) && Leq(b, a)
    ensures a == b
  {
    if |a| > 0 {
      LeqAntisymmetric(a[1..], b[1..]);
      assert a == [a[0]] + a[1..] && b == [b[0]] + b[1..];
    }
  }

  lemma {:induction false} LeqTotal(a: string, b: string)
    ensures Leq(a, b) || Leq(b, a)
  {
    if |a| > 0 && |b| > 0 {
      LeqTotal(a[1..], b[1..]);
    }
  }

  /** A prefix comes first in the byte-wise order. */
  lemma {:induction false} PrefixLeq(a: string, b: string)
    requires HasPrefix(b, a)
    ensures Leq(a, b)
  {
    if |a| > 0 {
      assert a[1..] <= b[1..];
      PrefixLeq(a[1..], b[1..]);
    }
  }

  ghost predicate Sorted(s: seq<string>) {
    forall i, j :: 0 <= i < j < |s| ==> Leq(s[i], s[j])
  }

  function Insert(x: string, s: seq<string>): seq<string> {
    if |s| == 0 then [x]
    else if Leq(x, s[0]) then [x] + s
    else [s[0]] + Insert(x, s[1..])
  }

  /** sort.StringSlice(s).Sort(): see SortSorts for what it promises. */
  function Sort(s: seq<string>): seq<string> {
    if |s| == 0 then [] else Insert(s[0], Sort(s[1..]))
  }

  lemma {:induction false} InsertMultiset(x: string, s: seq<string>)
    ensures multiset(Insert(x, s)) == multiset{x} + multiset(s)
  {
    if |s| > 0 {
      assert s == [s[0]] + s[1..];
      if !Leq(x, s[0]) {
        InsertMultiset(x, s[1..]);
      }
    }
  }

  lemma {:induction false} InsertSorted(x: string, s: seq<string>)
    requires Sorted(s)
    ensures Sorted(Insert(x, s))
  {
    if |s| > 0 {
      if Leq(x, s[0]) {
        forall j | 0 <= j < |s| ensures Leq(x, s[j]) {
          if j > 0 { LeqTransitive(x, s[0], s[j]); }
        }
      } else {
        LeqTotal(x, s[0]);
        InsertSorted(x, s[1..]);
        InsertMultiset(x, s[1..]);
        var t := Insert(x, s[1..]);
        forall j | 0 <= j < |t| ensures Leq(s[0], t[j]) {
          assert t[j] in multiset(t);
          assert t[j] == x || t[j] in s[1..];
        }
      }
    }
  }

  /** The sorted sequence is an ordered permutation of the input. */
  lemma {:induction false} SortSorts(s: seq<string>)
    ensures Sorted(Sort(s)) && multiset(Sort(s)) == multiset(s)
  {
    if |s| > 0 {
      SortSorts(s[1..]);
      InsertSorted(s[0], Sort(s[1..]));
      InsertMultiset(s[0], Sort(s[1..]));
      assert s == [s[0]] + s[1..];
    }
  }

  lemma {:induction false} LeastComesFirst(a: seq<string>, x: string)
    requires Sorted(a) && x in a
    ensures Leq(a[0], x)
  {
    var i :| 0 <= i < |a| && a[i] == x;
    if i == 0 { LeqReflexive(x); }
  }

  /** There is only one sorted arrangement of a multiset of strings. */
  lemma {:induction false} SortedUnique(a: seq<string>, b: seq<string>)
    requires Sorted(a) && Sorted(b) && multiset(a) == multiset(b)
    ensures a == b
  {
    SameElements(a, b);
    if |a| > 0 {
      assert a[0] in b && b[0] in a;
      LeastComesFirst(a, b[0]);
      LeastComesFirst(b, a[0]);
      LeqAntisymmetric(a[0], b[0]);
      SameTail(a, b);
      SortedUnique(a[1..], b[1..]);
      assert a == [a[0]] + a[1..] && b == [a[0]] + b[1..];
    }
  }

  /** Sorting forgets the order of its input. */
  lemma {:induction false} SortPermutation(a: seq<string>, b: seq<string>)
    requires multiset(a) == multiset(b)
    ensures Sort(a) == Sort(b)
  {
    SortSorts(a);
    SortSorts(b);
    SortedUnique(Sort(a), Sort(b));
  }

  /** sets.String.List. */
  method ListSorted(items: set<string>) returns (list: seq<string>)
    ensures Sorted(list) && Distinct(list)
    ensures forall x :: x in list <==> x in items
  {
    var todo, unsorted: seq<string> := items, [];
    while todo != {}
      invariant todo <= items && Distinct(unsorted)
      invariant forall x :: x in unsorted <==> x in items && x !in todo
      decreases todo
    {
      var x :| x in todo;
      unsorted := unsorted + [x];
      todo := todo - {x};
    }
    list := Sort(unsorted);
    SortSorts(unsorted);
    SameElements(list, unsorted);
    PermutationDistinct(unsorted, list);
  }
}
