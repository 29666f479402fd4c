/**
 What a deep copy is for (pkg/conversion/cloner.go): whatever is later written through the copy, the original
 stays as it was. This holds exactly when no cell that the original shows is kept by the copy: below a struct
 with an unexported field, or behind a map key, which the copy takes over as it is.
 */
module ClonerIsolation {
  import opened GoValues
  import opened Reachability
  import opened ClonerSpec

  /** Cell `a` shows in v: a slice of length zero reaches its array but shows nothing of it. */
  ghost predicate Visible(h: Heap, v: Value, n: nat, a: Addr)
    requires Bounded(h, v, n)
    decreases n, v
  {
    match v
    case Leaf(_, _) => false
    case Handle(_, _) => false
    case Nil(_) => false
    case Ptr(_, b) => a == b || Visible(h, h[b].v, n - 1, a)
    case Map(_, b) => a == b || exists k :: k in h[b].m && Visible(h, h[b].m[k], n - 1, a)
    case Slice(_, b, off, len) =>
      (a == b && len > 0) || exists i :: off <= i < off + len && Visible(h, h[b].elems[i], n - 1, a)
    case Iface(_, d) => Visible(h, d, n, a)
    case Array(_, es) => exists i :: 0 <= i < |es| && Visible(h, es[i], n, a)
    case Struct(_, fs) => exists i :: 0 <= i < |fs| && Visible(h, fs[i].v, n, a)
  }

  /** A write puts other contents into a cell; its kind and the length of an array stay. */
  predicate SameShape(c: Cell, d: Cell) {
    match c
    case PtrCell(_) => d.PtrCell?
    case MapCell(_) => d.MapCell?
    case ArrayCell(es) => d.ArrayCell? && |d.elems| == |es|
  }

  /** Memory after any writes to cells that can be got at from w, through map keys too, and any allocation. */
  ghost predicate Rewritten(h: Heap, w: Value, h': Heap) {
    && |h| <= |h'|
    && (forall a: Addr :: a < |h| ==> SameShape(h[a], h'[a]))
    && (forall a: Addr :: a < |h| && !Held(h, w, a) ==> h'[a] == h[a])
  }

  /** No writes through the copy can be seen through the original. */
  ghost predicate Isolated(h: Heap, v: Value, h': Heap, w: Value, n: nat)
    requires Bounded(h, v, n)
  {
    forall h'' :: Rewritten(h', w, h'') ==> Bounded(h'', v, n) && Unfold(h'', v, n) == Unfold(h, v, n)
  }

  ghost predicate ShowsKept(h: Heap, v: Value, n: nat, a: Addr)
    requires Bounded(h, v, n)
  {
    Kept({}, h, v, n, a) && Visible(h, v, n, a)
  }

  lemma {:induction false} VisibleIsReached(h: Heap, v: Value, n: nat, a: Addr)
    requires Bounded(h, v, n) && Visible(h, v, n, a)
    ensures Reaches(h, v, n, a)
    decreases n, v
  {
    match v
    case Ptr(_, b) =>
      if a != b { VisibleIsReached(h, h[b].v, n - 1, a); }
    case Map(_, b) =>
      if a != b {
        var k :| k in h[b].m && Visible(h, h[b].m[k], n - 1, a);
        VisibleIsReached(h, h[b].m[k], n - 1, a);
      }
    case Slice(_, b, off, len) =>
      if a != b {
        var i :| off <= i < off + len && Visible(h, h[b].elems[i], n - 1, a);
        VisibleIsReached(h, h[b].elems[i], n - 1, a);
      }
    case Iface(_, d) => VisibleIsReached(h, d, n, a);
    case Array(_, es) =>
      var i :| 0 <= i < |es| && Visible(h, es[i], n, a);
      VisibleIsReached(h, es[i], n, a);
    case Struct(_, fs) =>
      var i :| 0 <= i < |fs| && Visible(h, fs[i].v, n, a);
      VisibleIsReached(h, fs[i].v, n, a);
  }

  // ----- cells that do not show can be written -----

  /** h' keeps the shapes of h, and all of what v shows. */
  ghost predicate Keeps(h: Heap, h': Heap, v: Value, n: nat)
    requires Bounded(h, v, n)
  {
    && |h| <= |h'|
    && (forall a: Addr :: a < |h| ==> SameShape(h[a], h'[a]))
    && (forall a: Addr :: a < |h| && Visible(h, v, n, a) ==> h'[a] == h[a])
  }

  ghost predicate Unchanged(h: Heap, h': Heap, v: Value, n: nat) {
    Bounded(h, v, n) && Bounded(h', v, n) && Unfold(h', v, n) == Unfold(h, v, n)
  }

  lemma {:induction false} SliceUnchanged(h: Heap, h': Heap, v: Value, n: nat)
    requires v.Slice? && Bounded(h, v, n) && v.cell < |h'| && SameShape(h[v.cell], h'[v.cell])
    requires v.len > 0 ==> h'[v.cell] == h[v.cell]
    requires forall i :: v.off <= i < v.off + v.len ==> Unchanged(h, h', h[v.cell].elems[i], n - 1)
    ensures Unchanged(h, h', v, n)
  {
    assert Unfold(h', v, n).elems == Unfold(h, v, n).elems;
  }

  lemma {:induction false} VisibleFrame(h: Heap, h': Heap, v: Value, n: nat)
    requires Bounded(h, v, n) && Keeps(h, h', v, n)
    ensures Unchanged(h, h', v, n)
    decreases n, v
  {
    match v
    case Leaf(_, _) =>
    case Handle(_, _) =>
    case Nil(_) =>
    case Ptr(_, b) =>
      assert Visible(h, v, n, b);
      VisibleFrame(h, h', h[b].v, n - 1);
    case Map(_, b) =>
      assert Visible(h, v, n, b);
      forall k | k in h[b].m ensures Unchanged(h, h', h[b].m[k], n - 1) {
        VisibleFrame(h, h', h[b].m[k], n - 1);
      }
      assert Unfold(h', v, n).m == Unfold(h, v, n).m;
    case Slice(_, b, off, len) =>
      assert len > 0 ==> Visible(h, v, n, b);
      forall i | off <= i < off + len ensures Unchanged(h, h', h[b].elems[i], n - 1) {
        VisibleFrame(h, h', h[b].elems[i], n - 1);
      }
      SliceUnchanged(h, h', v, n);
    case Iface(_, d) => VisibleFrame(h, h', d, n);
    case Array(_, es) =>
      forall i | 0 <= i < |es| ensures Unchanged(h, h', es[i], n) {
        VisibleFrame(h, h', es[i], n);
      }
      assert Unfold(h', v, n).elems == Unfold(h, v, n).elems;
    case Struct(_, fs) =>
      forall i | 0 <= i < |fs| ensures Unchanged(h, h', fs[i].v, n) {
        VisibleFrame(h, h', fs[i].v, n);
      }
      assert Unfold(h', v, n).fields == Unfold(h, v, n).fields;
  }

  // ----- cells that show cannot -----

  function Other(v: Value): Value {
    if v.Leaf? then Leaf(v.t, v.bits + 1) else Leaf(0, 0)
  }

  /** Other contents of the same shape. */
  function Spoiled(c: Cell): (d: Cell)
    ensures SameShape(c, d)
  {
    match c
    case PtrCell(v) => PtrCell(Other(v))
    case MapCell(m) => MapCell(if m == map[] then map[Leaf(0, 0) := Leaf(0, 0)] else map[])
    case ArrayCell(es) => ArrayCell(seq(|es|, i requires 0 <= i < |es| => Other(es[i])))
  }

  lemma {:induction false} OtherDiffers(h: Heap, h': Heap, v: Value, n: nat)
    requires Bounded(h, v, n)
    ensures Bounded(h', Other(v), n) && Unfold(h', Other(v), n) != Unfold(h, v, n)
  {
  }

  /** The memory differs from h in the one cell, which has been spoiled. */
  ghost predicate OneSpoiled(h: Heap, h': Heap, a: Addr) {
    && a < |h| <= |h'| && h'[a] == Spoiled(h[a])
    && forall b: Addr :: b < |h| && b != a ==> h'[b] == h[b]
  }

  lemma {:induction false} SpoilingShows(h: Heap, h': Heap, v: Value, n: nat, a: Addr)
    requires Bounded(h, v, n) && Bounded(h', v, n) && OneSpoiled(h, h', a) && Visible(h, v, n, a)
    ensures Unfold(h', v, n) != Unfold(h, v, n)
    decreases n, v
  {
    match v
    case Ptr(_, b) =>
      if a == b { OtherDiffers(h, h', h[b].v, n - 1); } else { SpoilingShows(h, h', h[b].v, n - 1, a); }
    case Map(_, b) => MapShows(h, h', v, n, a);
    case Slice(_, b, off, len) => SliceShows(h, h', v, n, a);
    case Iface(_, d) => SpoilingShows(h, h', d, n, a);
    case Array(_, es) =>
      var i :| 0 <= i < |es| && Visible(h, es[i], n, a);
      SpoilingShows(h, h', es[i], n, a);
      assert Unfold(h', v, n).elems[i] != Unfold(h, v, n).elems[i];
    case Struct(_, fs) =>
      var i :| 0 <= i < |fs| && Visible(h, fs[i].v, n, a);
      SpoilingShows(h, h', fs[i].v, n, a);
      assert Unfold(h', v, n).fields[i] != Unfold(h, v, n).fields[i];
  }

  lemma {:induction false} MapShows(h: Heap, h': Heap, v: Value, n: nat, a: Addr)
    requires v.Map? && Bounded(h, v, n) && Bounded(h', v, n) && OneSpoiled(h, h', a) && Visible(h, v, n, a)
    ensures Unfold(h', v, n) != Unfold(h, v, n)
    decreases n, v, 0
  {
    var m, m' := h[v.cell].m, h'[v.cell].m;
    assert Unfold(h', v, n).m.Keys == m'.Keys && Unfold(h, v, n).m.Keys == m.Keys;
    if a == v.cell {
      if m == map[] {
        assert Leaf(0, 0) in m'.Keys;
      } else {
        assert m'.Keys == {} && m.Keys != {};
      }
    } else {
      var k :| k in m && Visible(h, m[k], n - 1, a);
      SpoilingShows(h, h', m[k], n - 1, a);
      assert Unfold(h', v, n).m[k] != Unfold(h, v, n).m[k];
    }
  }

  lemma {:induction false} SliceShows(h: Heap, h': Heap, v: Value, n: nat, a: Addr)
    requires v.Slice? && Bounded(h, v, n) && Bounded(h', v, n) && OneSpoiled(h, h', a) && Visible(h, v, n, a)
    ensures Unfold(h', v, n) != Unfold(h, v, n)
    decreases n, v, 0
  {
    var es := h[v.cell].elems;
    if a == v.cell && v.len > 0 {
      OtherDiffers(h, h', es[v.off], n - 1);
      assert Unfold(h', v, n).elems[0] != Unfold(h, v, n).elems[0];
    } else {
      var i :| v.off <= i < v.off + v.len && Visible(h, es[i], n - 1, a);
      SpoilingShows(h, h', es[i], n - 1, a);
      assert Unfold(h', v, n).elems[i - v.off] != Unfold(h, v, n).elems[i - v.off];
    }
  }

  // ----- the theorem -----

  lemma {:induction false} NothingShownIsolates(reg: set<TypeId>, h: Heap, v: Value, h': Heap, w: Value, n: nat)
    requires CopiedAs(reg, h, v, h', w, n) && h <= h' && Closed(h) && forall a: Addr :: !ShowsKept(h, v, n, a)
    ensures Isolated(h, v, h', w, n)
  {
    forall h'' | Rewritten(h', w, h'') ensures Unchanged(h, h'', v, n) {
      forall a: Addr | a < |h| && Visible(h, v, n, a) ensures h''[a] == h[a] {
        CopyKeeps(reg, h, v, h', w, n, a);
        assert !ShowsKept(h, v, n, a);
      }
      forall a: Addr | a < |h| ensures SameShape(h[a], h''[a]) {
        assert h[a] == h'[a];
      }
      VisibleFrame(h, h'', v, n);
    }
  }

  /** A write to a held cell that shows is seen. */
  lemma {:induction false} HeldShows(h: Heap, v: Value, h': Heap, w: Value, n: nat, a: Addr)
    requires Bounded(h, v, n) && h <= h' && Visible(h, v, n, a) && Held(h', w, a)
    ensures !Isolated(h, v, h', w, n)
  {
    VisibleIsReached(h, v, n, a);
    ReachesInside(h, v, n, a);
    var h'' := h'[a := Spoiled(h'[a])];
    assert Rewritten(h', w, h'');
    if Bounded(h'', v, n) {
      assert OneSpoiled(h, h'', a);
      SpoilingShows(h, h'', v, n, a);
    }
  }

  /**
   Where no registered type intervenes: the original is safe from all writes through the copy exactly when it
   shows no cell that hangs below a struct with an unexported field or from a map key.
   */
  lemma {:induction false} IsolatedIff(reg: set<TypeId>, h: Heap, v: Value, h': Heap, w: Value, n: nat)
    requires CopiedAs(reg, h, v, h', w, n) && h <= h' && Closed(h) && Unregistered(reg, h, v, n)
    ensures Isolated(h, v, h', w, n) <==> forall a: Addr :: !ShowsKept(h, v, n, a)
  {
    if a: Addr :| ShowsKept(h, v, n, a) {
      KeptIsHeld({}, h, v, n, a);
      SharingIsExact(reg, h, v, h', w, n, a);
      HeldShows(h, v, h', w, n, a);
    } else {
      NothingShownIsolates(reg, h, v, h', w, n);
    }
  }

  /** A struct of a map, with a pointer as its key, and of that pointer. */
  function KeyedMemory(x: int): Heap {
    [MapCell(map[Ptr(1, 1) := Leaf(0, 0)]), PtrCell(Leaf(0, x))]
  }

  function KeyedValue(): Value {
    Struct(3, [Field(true, Map(2, 0)), Field(true, Ptr(1, 1))])
  }

  /** A pointer as a map key defeats the copy: no field is unexported, and yet a write through the key shows. */
  lemma {:induction false} KeyIsNotCopied(reg: set<TypeId>, x: int, h': Heap, w: Value)
    requires CopiedAs(reg, KeyedMemory(x), KeyedValue(), h', w, 1) && KeyedMemory(x) <= h'
    ensures NoPrivateFields(KeyedMemory(x), KeyedValue(), 1)
    ensures Held(h', w, 1) && !Isolated(KeyedMemory(x), KeyedValue(), h', w, 1)
  {
    var h, v := KeyedMemory(x), KeyedValue();
    KeyHeld(x);
    KeysAreShared(reg, h, v, h', w, 1, 1);
    PointerShows(x);
    HeldShows(h, v, h', w, 1, 1);
  }

  lemma {:induction false} KeyedIsClosed(x: int)
    ensures Closed(KeyedMemory(x)) && Bounded(KeyedMemory(x), KeyedValue(), 1)
  {
  }

  lemma {:induction false} KeyHeld(x: int)
    ensures Closed(KeyedMemory(x)) && Bounded(KeyedMemory(x), KeyedValue(), 1)
    ensures HangsFromKey(KeyedMemory(x), KeyedValue(), 1, 1)
  {
    var h, v, k := KeyedMemory(x), KeyedValue(), Ptr(1, 1);
    KeyedIsClosed(x);
    var m := v.fields[0].v;
    assert OwnKey(h, m, 1, k) && HasKey(Unfold(h, m, 1), k);
    assert Part(h, v, 1, m, 1);
    PartKey(h, v, 1, m, 1, k);
    assert Within(h, k, 1, 1);
    assert Keyed(h, Unfold(h, v, 1), k, 1);
  }

  lemma {:induction false} PointerShows(x: int)
    ensures Bounded(KeyedMemory(x), KeyedValue(), 1)
    ensures Visible(KeyedMemory(x), KeyedValue(), 1, 1) && NoPrivateFields(KeyedMemory(x), KeyedValue(), 1)
  {
    var h, v := KeyedMemory(x), KeyedValue();
    assert Bounded(h, v.fields[1].v, 1) && Visible(h, v.fields[1].v, 1, 1);
  }
}
