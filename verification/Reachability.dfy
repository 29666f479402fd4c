/**
 What can be got at from a Go value, map keys included. The copier never follows a key, so nothing is asked
 of keys here: they may be part of cycles.
 */
module Reachability {
  import opened GoValues

  /** Cell `a` is reached from v by a chain of at most m references. */
  ghost predicate Within(h: Heap, v: Value, m: nat, a: Addr)
    decreases m, v
  {
    match v
    case Leaf(_, _) => false
    case Handle(_, _) => false
    case Nil(_) => false
    case Ptr(_, b) => m > 0 && b < |h| && (a == b || (h[b].PtrCell? && Within(h, h[b].v, m - 1, a)))
    case Map(_, b) =>
      m > 0 && b < |h| && (a == b || (h[b].MapCell? && exists k :: k in h[b].m && EntryWithin(h, h[b].m, k, m - 1, a)))
    case Slice(_, b, off, len) =>
      && m > 0 && b < |h|
      && (a == b ||
          (h[b].ArrayCell? && exists i :: off <= i < off + len && i < |h[b].elems| && Within(h, h[b].elems[i], m - 1, a)))
    case Iface(_, d) => Within(h, d, m, a)
    case Array(_, es) => exists i :: 0 <= i < |es| && Within(h, es[i], m, a)
    case Struct(_, fs) => exists i :: 0 <= i < |fs| && Within(h, fs[i].v, m, a)
  }

  /** Through the key or through the value. */
  ghost predicate EntryWithin(h: Heap, entries: map<Value, Value>, k: Value, m: nat, a: Addr)
    requires k in entries
    decreases m
  {
    Within(h, k, m, a) || Within(h, entries[k], m, a)
  }

  /** Whoever has v can get at cell `a`. */
  ghost predicate Held(h: Heap, v: Value, a: Addr) {
    exists m: nat :: Within(h, v, m, a)
  }

  /** The value is a key of some map in the tree. */
  ghost predicate HasKey(t: Tree, k: Value)
    decreases t
  {
    match t
    case TLeaf(_, _) => false
    case THandle(_, _) => false
    case TNil(_) => false
    case TPtr(_, target) => HasKey(target, k)
    case TMap(_, m) => k in m || exists j :: j in m && HasKey(m[j], k)
    case TSlice(_, es) => exists i :: 0 <= i < |es| && HasKey(es[i], k)
    case TIface(_, d) => HasKey(d, k)
    case TArray(_, es) => exists i :: 0 <= i < |es| && HasKey(es[i], k)
    case TStruct(_, fs) => exists i :: 0 <= i < |fs| && HasKey(fs[i], k)
  }

  ghost predicate Keyed(h: Heap, t: Tree, k: Value, a: Addr) {
    HasKey(t, k) && Held(h, k, a)
  }

  /** Cell `a` can be got at through a map key inside v. */
  ghost predicate HangsFromKey(h: Heap, v: Value, n: nat, a: Addr)
    requires Bounded(h, v, n)
  {
    exists k :: Keyed(h, Unfold(h, v, n), k, a)
  }

  // ----- parts -----

  /** c, with chains of at most n', is what v refers to or holds inline, keys left out. */
  ghost predicate Part(h: Heap, v: Value, n: nat, c: Value, n': nat)
    requires Bounded(h, v, n)
    ensures Part(h, v, n, c, n') ==> Bounded(h, c, n') && (n' < n || (n' == n && c < v))
  {
    match v
    case Leaf(_, _) => false
    case Handle(_, _) => false
    case Nil(_) => false
    case Ptr(_, b) => n' == n - 1 && c == h[b].v
    case Map(_, b) => n' == n - 1 && exists k :: k in h[b].m && c == h[b].m[k]
    case Slice(_, b, off, len) => n' == n - 1 && exists i :: off <= i < off + len && c == h[b].elems[i]
    case Iface(_, d) => n' == n && c == d
    case Array(_, es) => n' == n && exists i :: 0 <= i < |es| && c == es[i]
    case Struct(_, fs) => n' == n && exists i :: 0 <= i < |fs| && c == fs[i].v
  }

  ghost predicate OwnKey(h: Heap, v: Value, n: nat, k: Value)
    requires Bounded(h, v, n)
  {
    v.Map? && k in h[v.cell].m
  }

  /** s is one of the trees directly below t. */
  ghost predicate Below(t: Tree, s: Tree) {
    match t
    case TLeaf(_, _) => false
    case THandle(_, _) => false
    case TNil(_) => false
    case TPtr(_, target) => s == target
    case TMap(_, m) => exists j :: j in m && m[j] == s
    case TSlice(_, es) => exists i :: 0 <= i < |es| && es[i] == s
    case TIface(_, d) => s == d
    case TArray(_, es) => exists i :: 0 <= i < |es| && es[i] == s
    case TStruct(_, fs) => exists i :: 0 <= i < |fs| && fs[i] == s
  }

  lemma {:induction false} KeyBelow(t: Tree, s: Tree, k: Value)
    requires Below(t, s) && HasKey(s, k)
    ensures HasKey(t, k)
  {
  }

  lemma {:induction false} KeyFromBelow(t: Tree, k: Value) returns (s: Tree)
    requires HasKey(t, k) && !(t.TMap? && k in t.m)
    ensures Below(t, s) && HasKey(s, k)
  {
    match t
    case TPtr(_, target) => s := target;
    case TMap(_, m) =>
      var j :| j in m && HasKey(m[j], k);
      s := m[j];
    case TSlice(_, es) =>
      var i :| 0 <= i < |es| && HasKey(es[i], k);
      s := es[i];
    case TIface(_, d) => s := d;
    case TArray(_, es) =>
      var i :| 0 <= i < |es| && HasKey(es[i], k);
      s := es[i];
    case TStruct(_, fs) =>
      var i :| 0 <= i < |fs| && HasKey(fs[i], k);
      s := fs[i];
  }

  lemma {:induction false} SliceTrees(h: Heap, v: Value, n: nat, s: Tree) returns (i: nat)
    requires v.Slice? && Bounded(h, v, n) && Below(Unfold(h, v, n), s)
    ensures v.off <= i < v.off + v.len && Unfold(h, h[v.cell].elems[i], n - 1) == s
  {
    var j :| 0 <= j < v.len && Unfold(h, v, n).elems[j] == s;
    i := v.off + j;
  }

  lemma {:induction false} SlicePartBelow(h: Heap, v: Value, n: nat, c: Value)
    requires v.Slice? && Bounded(h, v, n) && Part(h, v, n, c, n - 1)
    ensures Below(Unfold(h, v, n), Unfold(h, c, n - 1))
  {
    var i :| v.off <= i < v.off + v.len && c == h[v.cell].elems[i];
    assert Unfold(h, v, n).elems[i - v.off] == Unfold(h, c, n - 1);
  }

  /** The parts of a value unfold to the trees directly below its own, */
  lemma {:induction false} PartBelow(h: Heap, v: Value, n: nat, c: Value, n': nat)
    requires Bounded(h, v, n) && Part(h, v, n, c, n')
    ensures Below(Unfold(h, v, n), Unfold(h, c, n'))
  {
    var t := Unfold(h, v, n);
    if v.Map? {
      var j :| j in h[v.cell].m && c == h[v.cell].m[j];
      assert t.m[j] == Unfold(h, c, n');
    } else if v.Slice? {
      SlicePartBelow(h, v, n, c);
    } else if v.Array? {
      var i :| 0 <= i < |v.elems| && c == v.elems[i];
      assert t.elems[i] == Unfold(h, c, n');
    } else if v.Struct? {
      var i :| 0 <= i < |v.fields| && c == v.fields[i].v;
      assert t.fields[i] == Unfold(h, c, n');
    }
  }

  /** and all of these come from parts. */
  lemma {:induction false} BelowIsPart(h: Heap, v: Value, n: nat, s: Tree) returns (c: Value, n': nat)
    requires Bounded(h, v, n) && Below(Unfold(h, v, n), s)
    ensures Part(h, v, n, c, n') && Unfold(h, c, n') == s
  {
    match v
    case Ptr(_, b) => c, n' := h[b].v, n - 1;
    case Map(_, b) =>
      var j :| j in h[b].m && Unfold(h, h[b].m[j], n - 1) == s;
      c, n' := h[b].m[j], n - 1;
    case Slice(_, b, off, len) =>
      var i := SliceTrees(h, v, n, s);
      c, n' := h[b].elems[i], n - 1;
    case Iface(_, d) => c, n' := d, n;
    case Array(_, es) =>
      var i :| 0 <= i < |es| && Unfold(h, v, n).elems[i] == s;
      c, n' := es[i], n;
    case Struct(_, fs) =>
      var i :| 0 <= i < |fs| && Unfold(h, v, n).fields[i] == s;
      c, n' := fs[i].v, n;
  }

  lemma {:induction false} PartKey(h: Heap, v: Value, n: nat, c: Value, n': nat, k: Value)
    requires Bounded(h, v, n) && Part(h, v, n, c, n') && HasKey(Unfold(h, c, n'), k)
    ensures HasKey(Unfold(h, v, n), k)
  {
    PartBelow(h, v, n, c, n');
    KeyBelow(Unfold(h, v, n), Unfold(h, c, n'), k);
  }

  lemma {:induction false} KeyComesFrom(h: Heap, v: Value, n: nat, k: Value) returns (c: Value, n': nat)
    requires Bounded(h, v, n) && HasKey(Unfold(h, v, n), k) && !OwnKey(h, v, n, k)
    ensures Part(h, v, n, c, n') && HasKey(Unfold(h, c, n'), k)
  {
    var s := KeyFromBelow(Unfold(h, v, n), k);
    c, n' := BelowIsPart(h, v, n, s);
  }

  lemma {:induction false} PartHeld(h: Heap, v: Value, n: nat, c: Value, n': nat, a: Addr)
    requires Bounded(h, v, n) && Part(h, v, n, c, n') && Held(h, c, a)
    ensures Held(h, v, a)
  {
    var m: nat :| Within(h, c, m, a);
    if v.Map? {
      var k :| k in h[v.cell].m && c == h[v.cell].m[k];
      assert EntryWithin(h, h[v.cell].m, k, m, a);
    }
    assert Within(h, v, if n' < n then m + 1 else m, a);
  }

  // ----- a cell is held through values or through a key -----

  lemma {:induction false} ReachedIsWithin(h: Heap, v: Value, n: nat, a: Addr)
    requires Bounded(h, v, n) && Reaches(h, v, n, a)
    ensures Within(h, v, n, a)
    decreases n, v
  {
    match v
    case Ptr(_, b) =>
      if a != b { ReachedIsWithin(h, h[b].v, n - 1, a); }
    case Map(_, b) =>
      if a != b {
        var k :| k in h[b].m && Reaches(h, h[b].m[k], n - 1, a);
        ReachedIsWithin(h, h[b].m[k], n - 1, a);
        assert EntryWithin(h, h[b].m, k, n - 1, a);
      }
    case Slice(_, b, off, len) =>
      if a != b {
        var i :| off <= i < off + len && Reaches(h, h[b].elems[i], n - 1, a);
        ReachedIsWithin(h, h[b].elems[i], n - 1, a);
      }
    case Iface(_, d) => ReachedIsWithin(h, d, n, a);
    case Array(_, es) =>
      var i :| 0 <= i < |es| && Reaches(h, es[i], n, a);
      ReachedIsWithin(h, es[i], n, a);
    case Struct(_, fs) =>
      var i :| 0 <= i < |fs| && Reaches(h, fs[i].v, n, a);
      ReachedIsWithin(h, fs[i].v, n, a);
  }

  lemma {:induction false} OwnKeyHeld(h: Heap, v: Value, n: nat, k: Value, a: Addr)
    requires Bounded(h, v, n) && OwnKey(h, v, n, k) && Held(h, k, a)
    ensures Held(h, v, a)
  {
    var m: nat :| Within(h, k, m, a);
    assert EntryWithin(h, h[v.cell].m, k, m, a);
    assert Within(h, v, m + 1, a);
  }

  lemma {:induction false} KeyIsHeld(h: Heap, v: Value, n: nat, k: Value, a: Addr)
    requires Bounded(h, v, n) && HasKey(Unfold(h, v, n), k) && Held(h, k, a)
    ensures Held(h, v, a)
    decreases n, v
  {
    if OwnKey(h, v, n, k) {
      OwnKeyHeld(h, v, n, k, a);
    } else {
      var c, n' := KeyComesFrom(h, v, n, k);
      KeyIsHeld(h, c, n', k, a);
      PartHeld(h, v, n, c, n', a);
    }
  }

  /** One step towards a cell: it is the cell of v itself, or through a key, or through a part. */
  lemma {:induction false} WithinComesFrom(h: Heap, v: Value, n: nat, m: nat, a: Addr) returns (c: Value, n': nat, m': nat)
    requires Bounded(h, v, n) && Within(h, v, m, a)
    ensures || Reaches(h, v, n, a) || HangsFromKey(h, v, n, a)
            || (Part(h, v, n, c, n') && Within(h, c, m', a) && (m' < m || (m' == m && c < v)))
  {
    c, n', m' := v, n, m;
    match v
    case Ptr(_, b) =>
      if a != b { c, n', m' := h[b].v, n - 1, m - 1; }
    case Map(_, b) =>
      if a != b {
        var k :| k in h[b].m && EntryWithin(h, h[b].m, k, m - 1, a);
        if Within(h, k, m - 1, a) {
          assert Keyed(h, Unfold(h, v, n), k, a);
        } else {
          c, n', m' := h[b].m[k], n - 1, m - 1;
        }
      }
    case Slice(_, b, off, len) =>
      if a != b {
        var i :| off <= i < off + len && i < |h[b].elems| && Within(h, h[b].elems[i], m - 1, a);
        c, n', m' := h[b].elems[i], n - 1, m - 1;
      }
    case Iface(_, d) => c := d;
    case Array(_, es) =>
      var i :| 0 <= i < |es| && Within(h, es[i], m, a);
      c := es[i];
    case Struct(_, fs) =>
      var i :| 0 <= i < |fs| && Within(h, fs[i].v, m, a);
      c := fs[i].v;
  }

  lemma {:induction false} WithinSplits(h: Heap, v: Value, n: nat, m: nat, a: Addr)
    requires Bounded(h, v, n) && Within(h, v, m, a)
    ensures Reaches(h, v, n, a) || HangsFromKey(h, v, n, a)
    decreases m, v
  {
    var c, n', m' := WithinComesFrom(h, v, n, m, a);
    if !Reaches(h, v, n, a) && !HangsFromKey(h, v, n, a) {
      WithinSplits(h, c, n', m', a);
      PartSplits(h, v, n, c, n', a);
    }
  }

  lemma {:induction false} PartSplits(h: Heap, v: Value, n: nat, c: Value, n': nat, a: Addr)
    requires Bounded(h, v, n) && Part(h, v, n, c, n')
    requires Reaches(h, c, n', a) || HangsFromKey(h, c, n', a)
    ensures Reaches(h, v, n, a) || HangsFromKey(h, v, n, a)
  {
    if HangsFromKey(h, c, n', a) {
      var k :| Keyed(h, Unfold(h, c, n'), k, a);
      PartKey(h, v, n, c, n', k);
      assert Keyed(h, Unfold(h, v, n), k, a);
    }
  }

  /** Whatever the bound on reference chains. */
  lemma {:induction false} HeldSplits(h: Heap, v: Value, n: nat, a: Addr)
    requires Bounded(h, v, n)
    ensures Held(h, v, a) <==> Reaches(h, v, n, a) || HangsFromKey(h, v, n, a)
  {
    if Held(h, v, a) {
      var m: nat :| Within(h, v, m, a);
      WithinSplits(h, v, n, m, a);
    }
    if Reaches(h, v, n, a) {
      ReachedIsWithin(h, v, n, a);
    }
    if HangsFromKey(h, v, n, a) {
      var k :| Keyed(h, Unfold(h, v, n), k, a);
      KeyIsHeld(h, v, n, k, a);
    }
  }

  lemma {:induction false} HeldInside(h: Heap, v: Value, a: Addr)
    requires Held(h, v, a)
    ensures a < |h|
  {
    var m: nat :| Within(h, v, m, a);
    WithinInside(h, v, m, a);
  }

  lemma {:induction false} WithinInside(h: Heap, v: Value, m: nat, a: Addr)
    requires Within(h, v, m, a)
    ensures a < |h|
    decreases m, v
  {
    match v
    case Ptr(_, b) =>
      if a != b { WithinInside(h, h[b].v, m - 1, a); }
    case Map(_, b) =>
      if a != b {
        var k :| k in h[b].m && EntryWithin(h, h[b].m, k, m - 1, a);
        WithinInside(h, if Within(h, k, m - 1, a) then k else h[b].m[k], m - 1, a);
      }
    case Slice(_, b, off, len) =>
      if a != b {
        var i :| off <= i < off + len && i < |h[b].elems| && Within(h, h[b].elems[i], m - 1, a);
        WithinInside(h, h[b].elems[i], m - 1, a);
      }
    case Iface(_, d) => WithinInside(h, d, m, a);
    case Array(_, es) =>
      var i :| 0 <= i < |es| && Within(h, es[i], m, a);
      WithinInside(h, es[i], m, a);
    case Struct(_, fs) =>
      var i :| 0 <= i < |fs| && Within(h, fs[i].v, m, a);
      WithinInside(h, fs[i].v, m, a);
  }

  // ----- memories without dangling references -----

  predicate Inside(h: Heap, v: Value) {
    match v
    case Leaf(_, _) => true
    case Handle(_, _) => true
    case Nil(_) => true
    case Ptr(_, b) => b < |h|
    case Map(_, b) => b < |h|
    case Slice(_, b, _, _) => b < |h|
    case Iface(_, d) => Inside(h, d)
    case Array(_, es) => forall i :: 0 <= i < |es| ==> Inside(h, es[i])
    case Struct(_, fs) => forall i :: 0 <= i < |fs| ==> Inside(h, fs[i].v)
  }

  predicate CellInside(h: Heap, c: Cell) {
    match c
    case PtrCell(v) => Inside(h, v)
    case MapCell(m) => forall k :: k in m ==> Inside(h, k) && Inside(h, m[k])
    case ArrayCell(es) => forall i :: 0 <= i < |es| ==> Inside(h, es[i])
  }

  /** No reference dangles. */
  predicate Closed(h: Heap) {
    forall b :: 0 <= b < |h| ==> CellInside(h, h[b])
  }

  lemma {:induction false} KeyInside(h: Heap, v: Value, n: nat, k: Value)
    requires Bounded(h, v, n) && Closed(h) && HasKey(Unfold(h, v, n), k)
    ensures Inside(h, k)
    decreases n, v
  {
    if OwnKey(h, v, n, k) {
      assert CellInside(h, h[v.cell]);
    } else {
      var c, n' := KeyComesFrom(h, v, n, k);
      KeyInside(h, c, n', k);
    }
  }

  /** Then nothing allocated later is got at from old values. */
  lemma {:induction false} WithinGrown(h: Heap, h': Heap, v: Value, m: nat, a: Addr)
    requires Closed(h) && Inside(h, v) && h <= h'
    ensures Within(h', v, m, a) <==> Within(h, v, m, a)
    decreases m, v
  {
    match v
    case Leaf(_, _) =>
    case Handle(_, _) =>
    case Nil(_) =>
    case Ptr(_, b) =>
      assert CellInside(h, h[b]);
      if m > 0 && h[b].PtrCell? { WithinGrown(h, h', h[b].v, m - 1, a); }
    case Map(_, b) =>
      assert CellInside(h, h[b]);
      if m > 0 && h[b].MapCell? {
        forall k | k in h[b].m ensures EntryWithin(h', h[b].m, k, m - 1, a) <==> EntryWithin(h, h[b].m, k, m - 1, a) {
          WithinGrown(h, h', k, m - 1, a);
          WithinGrown(h, h', h[b].m[k], m - 1, a);
        }
      }
    case Slice(_, b, off, len) =>
      assert CellInside(h, h[b]);
      if m > 0 && h[b].ArrayCell? {
        var es := h[b].elems;
        forall i | 0 <= i < |es| ensures Within(h', es[i], m - 1, a) <==> Within(h, es[i], m - 1, a) {
          WithinGrown(h, h', es[i], m - 1, a);
        }
      }
    case Iface(_, d) => WithinGrown(h, h', d, m, a);
    case Array(_, es) =>
      forall i | 0 <= i < |es| ensures Within(h', es[i], m, a) <==> Within(h, es[i], m, a) {
        WithinGrown(h, h', es[i], m, a);
      }
    case Struct(_, fs) =>
      forall i | 0 <= i < |fs| ensures Within(h', fs[i].v, m, a) <==> Within(h, fs[i].v, m, a) {
        WithinGrown(h, h', fs[i].v, m, a);
      }
  }

  lemma {:induction false} HeldGrown(h: Heap, h': Heap, v: Value, a: Addr)
    requires Closed(h) && Inside(h, v) && h <= h'
    ensures Held(h', v, a) <==> Held(h, v, a)
  {
    forall m: nat ensures Within(h', v, m, a) <==> Within(h, v, m, a) {
      WithinGrown(h, h', v, m, a);
    }
  }

  /** Two values with the same tree hold the same cells through their map keys. */
  lemma {:induction false} SameTreeSameKeys(h: Heap, v: Value, h': Heap, w: Value, n: nat, a: Addr)
    requires Closed(h) && h <= h' && Bounded(h, v, n) && Bounded(h', w, n) && Unfold(h', w, n) == Unfold(h, v, n)
    ensures HangsFromKey(h', w, n, a) <==> HangsFromKey(h, v, n, a)
  {
    var t := Unfold(h, v, n);
    forall k ensures Keyed(h', t, k, a) <==> Keyed(h, t, k, a) {
      if HasKey(t, k) {
        KeyInside(h, v, n, k);
        HeldGrown(h, h', k, a);
      }
    }
  }
}
