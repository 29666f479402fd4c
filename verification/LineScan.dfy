/** Reading lines with one bit of state, for any way of flagging a line and moving the state. */
module LineScan {
  import opened Permutations

  function ScanBy<L>(flag: (string, bool) -> L, next: (bool, string) -> bool, lines: seq<string>, open: bool): seq<L> {
    if |lines| == 0 then [] else [flag(lines[0], open)] + ScanBy(flag, next, lines[1..], next(open, lines[0]))
  }

  predicate EndBy(next: (bool, string) -> bool, lines: seq<string>, open: bool) {
    if |lines| == 0 then open else EndBy(next, lines[1..], next(open, lines[0]))
  }

  function FilterBy<L>(keep: L -> bool, lines: seq<L>): seq<L> {
    if |lines| == 0 then []
    else (if keep(lines[0]) then [lines[0]] else []) + FilterBy(keep, lines[1..])
  }

  lemma {:induction false} ScanStep<L>(
    flag: (string, bool) -> L, next: (bool, string) -> bool, lines: seq<string>, i: nat, open: bool, out: seq<L>)
    requires i < |lines|
    ensures out + ScanBy(flag, next, lines[i..], open) ==
            out + [flag(lines[i], open)] + ScanBy(flag, next, lines[i + 1..], next(open, lines[i]))
  {
    assert lines[i..][1..] == lines[i + 1..];
  }

  lemma {:induction false} FilterStep<L>(keep: L -> bool, lines: seq<L>, i: nat, out: seq<L>)
    requires i < |lines|
    ensures out + FilterBy(keep, lines[i..]) ==
            out + (if keep(lines[i]) then [lines[i]] else []) + FilterBy(keep, lines[i + 1..])
  {
    assert lines[i..][1..] == lines[i + 1..];
  }

  lemma {:induction false} ScanConcat<L>(
    flag: (string, bool) -> L, next: (bool, string) -> bool, a: seq<string>, b: seq<string>, open: bool)
    ensures ScanBy(flag, next, a + b, open) == ScanBy(flag, next, a, open) + ScanBy(flag, next, b, EndBy(next, a, open))
    ensures EndBy(next, a + b, open) == EndBy(next, b, EndBy(next, a, open))
    decreases |a|
  {
    if |a| == 0 {
      assert a + b == b;
      assert ScanBy(flag, next, a, open) == [];
    } else {
      assert (a + b)[1..] == a[1..] + b && (a + b)[0] == a[0];
      ScanConcat(flag, next, a[1..], b, next(open, a[0]));
      assert [flag(a[0], open)] + (ScanBy(flag, next, a[1..], next(open, a[0])) + ScanBy(flag, next, b, EndBy(next, a, open)))
          == ScanBy(flag, next, a, open) + ScanBy(flag, next, b, EndBy(next, a, open));
    }
  }

  /** Lines that do not move the state are flagged one by one. */
  lemma {:induction false} ScanStill<L>(
    flag: (string, bool) -> L, next: (bool, string) -> bool, still: string -> L, lines: seq<string>, open: bool)
    requires forall s :: s in lines ==> next(open, s) == open && flag(s, open) == still(s)
    ensures ScanBy(flag, next, lines, open) == MapSeq(still, lines) && EndBy(next, lines, open) == open
  {
    if |lines| > 0 {
      assert lines == [lines[0]] + lines[1..];
      ScanStill(flag, next, still, lines[1..], open);
      assert MapSeq(still, lines) == [still(lines[0])] + MapSeq(still, lines[1..]);
    }
  }

  lemma {:induction false} ScanHolds<L>(
    flag: (string, bool) -> L, next: (bool, string) -> bool, data: L -> string, lines: seq<string>, open: bool)
    requires forall s, o :: data(flag(s, o)) == s
    ensures forall l :: l in ScanBy(flag, next, lines, open) ==> data(l) in lines
  {
    if |lines| > 0 {
      ScanHolds(flag, next, data, lines[1..], next(open, lines[0]));
    }
  }

  lemma {:induction false} ScanCons<L>(
    flag: (string, bool) -> L, next: (bool, string) -> bool, data: L -> string, s: string, rest: seq<L>, open: bool)
    requires forall s, o :: data(flag(s, o)) == s
    requires ScanBy(flag, next, MapSeq(data, rest), next(open, s)) == rest
    ensures ScanBy(flag, next, MapSeq(data, [flag(s, open)] + rest), open) == [flag(s, open)] + rest
    ensures EndBy(next, MapSeq(data, [flag(s, open)] + rest), open) == EndBy(next, MapSeq(data, rest), next(open, s))
  {
    assert MapSeq(data, [flag(s, open)] + rest) == [s] + MapSeq(data, rest);
    assert ([s] + MapSeq(data, rest))[1..] == MapSeq(data, rest);
  }

  /** Dropping lines that do not move the state leaves the flags of the others as they were. */
  lemma {:induction false} FilterKeepsScan<L>(
    flag: (string, bool) -> L, next: (bool, string) -> bool, data: L -> string, keep: L -> bool, lines: seq<L>, open: bool)
    requires forall s, o :: data(flag(s, o)) == s
    requires forall s, o :: keep(flag(s, o)) || next(o, s) == o
    requires ScanBy(flag, next, MapSeq(data, lines), open) == lines
    ensures ScanBy(flag, next, MapSeq(data, FilterBy(keep, lines)), open) == FilterBy(keep, lines)
    ensures EndBy(next, MapSeq(data, FilterBy(keep, lines)), open) == EndBy(next, MapSeq(data, lines), open)
    decreases |lines|
  {
    if |lines| > 0 {
      var s, rest := data(lines[0]), lines[1..];
      assert MapSeq(data, lines)[1..] == MapSeq(data, rest);
      assert lines[0] == flag(s, open);
      assert ScanBy(flag, next, MapSeq(data, rest), next(open, s)) == rest;
      FilterKeepsScan(flag, next, data, keep, rest, next(open, s));
      if keep(lines[0]) {
        ScanCons(flag, next, data, s, FilterBy(keep, rest), open);
      } else {
        assert [] + FilterBy(keep, rest) == FilterBy(keep, rest);
      }
    }
  }

  lemma {:induction false} FilterSelects<L>(keep: L -> bool, lines: seq<L>)
    ensures forall l :: l in FilterBy(keep, lines) ==> l in lines && keep(l)
  {
    if |lines| > 0 {
      FilterSelects(keep, lines[1..]);
    }
  }

  lemma {:induction false} FilterConcat<L>(keep: L -> bool, a: seq<L>, b: seq<L>)
    ensures FilterBy(keep, a + b) == FilterBy(keep, a) + FilterBy(keep, b)
    decreases |a|
  {
    if |a| == 0 {
      assert a + b == b && [] + FilterBy(keep, b) == FilterBy(keep, b);
    } else {
      assert (a + b)[1..] == a[1..] + b && (a + b)[0] == a[0];
      FilterConcat(keep, a[1..], b);
      var head := if keep(a[0]) then [a[0]] else [];
      assert head + (FilterBy(keep, a[1..]) + FilterBy(keep, b)) == head + FilterBy(keep, a[1..]) + FilterBy(keep, b);
    }
  }

  lemma {:induction false} FilterAll<L>(keep: L -> bool, lines: seq<L>)
    requires forall l :: l in lines ==> keep(l)
    ensures FilterBy(keep, lines) == lines
  {
    if |lines| > 0 {
      FilterAll(keep, lines[1..]);
      assert lines == [lines[0]] + lines[1..];
    }
  }
}
