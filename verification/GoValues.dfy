/**
 Go values as reflection sees them, over an explicit memory: a memory is a sequence of cells, an
 address is a position in it, and allocating appends. Structs and arrays are held inline; pointers,
 maps and slices refer to cells. Interior pointers (into a field or an element) are not represented.
 */
module GoValues {
  type Addr = nat
  type TypeId = nat

  datatype Value =
    | Leaf(t: TypeId, bits: int)                           // numbers, booleans, strings
    | Handle(t: TypeId, id: int)                           // chan, func, unsafe pointer, uintptr
    | Nil(t: TypeId)                                       // nil pointer, map, slice or interface
    | Ptr(t: TypeId, cell: Addr)
    | Map(t: TypeId, cell: Addr)
    | Slice(t: TypeId, cell: Addr, off: nat, len: nat)
    | Iface(t: TypeId, dyn: Value)                         // a non-nil interface and what it holds
    | Array(t: TypeId, elems: seq<Value>)
    | Struct(t: TypeId, fields: seq<Field>)

  /** A struct field; reflection cannot set an unexported one. */
  datatype Field = Field(settable: bool, v: Value)

  datatype Cell =
    | PtrCell(v: Value)
    | MapCell(m: map<Value, Value>)
    | ArrayCell(elems: seq<Value>)

  type Heap = seq<Cell>

  /** The value with all references followed. Map keys are compared by identity, as Go does. */
  datatype Tree =
    | TLeaf(t: TypeId, bits: int)
    | THandle(t: TypeId, id: int)
    | TNil(t: TypeId)
    | TPtr(t: TypeId, target: Tree)
    | TMap(t: TypeId, m: map<Value, Tree>)
    | TSlice(t: TypeId, elems: seq<Tree>)
    | TIface(t: TypeId, dyn: Tree)
    | TArray(t: TypeId, elems: seq<Tree>)
    | TStruct(t: TypeId, fields: seq<Tree>)

  /** Every reference resolves to a cell of its kind, and no chain of references is longer than n. */
  ghost predicate Bounded(h: Heap, v: Value, n: nat)
    decreases n, v
  {
    match v
    case Leaf(_, _) => true
    case Handle(_, _) => true
    case Nil(_) => true
    case Ptr(_, a) => n > 0 && a < |h| && h[a].PtrCell? && Bounded(h, h[a].v, n - 1)
    case Map(_, a) =>
      && n > 0 && a < |h| && h[a].MapCell?
      && forall k :: k in h[a].m ==> Bounded(h, h[a].m[k], n - 1)
    case Slice(_, a, off, len) =>
      && n > 0 && a < |h| && h[a].ArrayCell? && off + len <= |h[a].elems|
      && forall i :: off <= i < off + len ==> Bounded(h, h[a].elems[i], n - 1)
    case Iface(_, d) => !d.Iface? && Bounded(h, d, n)
    case Array(_, es) => forall i :: 0 <= i < |es| ==> Bounded(h, es[i], n)
    case Struct(_, fs) => forall i :: 0 <= i < |fs| ==> Bounded(h, fs[i].v, n)
  }

  ghost function Unfold(h: Heap, v: Value, n: nat): Tree
    requires Bounded(h, v, n)
    decreases n, v
  {
    match v
    case Leaf(t, b) => TLeaf(t, b)
    case Handle(t, i) => THandle(t, i)
    case Nil(t) => TNil(t)
    case Ptr(t, a) => TPtr(t, Unfold(h, h[a].v, n - 1))
    case Map(t, a) => TMap(t, map k | k in h[a].m :: Unfold(h, h[a].m[k], n - 1))
    case Slice(t, a, off, len) =>
      TSlice(t, seq(len, i requires 0 <= i < len => Unfold(h, h[a].elems[off + i], n - 1)))
    case Iface(t, d) => TIface(t, Unfold(h, d, n))
    case Array(t, es) => TArray(t, seq(|es|, i requires 0 <= i < |es| => Unfold(h, es[i], n)))
    case Struct(t, fs) => TStruct(t, seq(|fs|, i requires 0 <= i < |fs| => Unfold(h, fs[i].v, n)))
  }

  /** Cell `a` can be reached from v, other than through a map key. */
  ghost predicate Reaches(h: Heap, v: Value, n: nat, a: Addr)
    requires Bounded(h, v, n)
    decreases n, v
  {
    match v
    case Leaf(_, _) => false
    case Handle(_, _) => false
    case Nil(_) => false
    case Ptr(_, b) => a == b || Reaches(h, h[b].v, n - 1, a)
    case Map(_, b) => a == b || exists k :: k in h[b].m && Reaches(h, h[b].m[k], n - 1, a)
    case Slice(_, b, off, len) =>
      a == b || exists i :: off <= i < off + len && Reaches(h, h[b].elems[i], n - 1, a)
    case Iface(_, d) => Reaches(h, d, n, a)
    case Array(_, es) => exists i :: 0 <= i < |es| && Reaches(h, es[i], n, a)
    case Struct(_, fs) => exists i :: 0 <= i < |fs| && Reaches(h, fs[i].v, n, a)
  }

  /** Two memories that agree on what v can reach. */
  ghost predicate AgreeOn(h: Heap, h': Heap, v: Value, n: nat)
    requires Bounded(h, v, n)
  {
    forall a: Addr :: Reaches(h, v, n, a) ==> a < |h'| && a < |h| && h'[a] == h[a]
  }

  /** v means the same, and reaches the same cells, in both memories and under both bounds. */
  ghost predicate SameView(h: Heap, n: nat, h': Heap, n': nat, v: Value) {
    && Bounded(h, v, n) && Bounded(h', v, n')
    && Unfold(h', v, n') == Unfold(h, v, n)
    && forall a: Addr :: Reaches(h', v, n', a) <==> Reaches(h, v, n, a)
  }

  lemma {:induction false} MapView(h: Heap, n: nat, h': Heap, n': nat, v: Value)
    requires v.Map? && Bounded(h, v, n) && n' > 0 && v.cell < |h'| && h'[v.cell] == h[v.cell]
    requires forall k :: k in h[v.cell].m ==> SameView(h, n - 1, h', n' - 1, h[v.cell].m[k])
    ensures SameView(h, n, h', n', v)
  {
    forall a: Addr ensures Reaches(h', v, n', a) <==> Reaches(h, v, n, a) {
      MapReaches(h, n, h', n', v, a);
    }
    assert Unfold(h', v, n').m == Unfold(h, v, n).m;
  }

  lemma {:induction false} MapReaches(h: Heap, n: nat, h': Heap, n': nat, v: Value, a: Addr)
    requires v.Map? && Bounded(h, v, n) && Bounded(h', v, n') && h'[v.cell] == h[v.cell]
    requires forall k :: k in h[v.cell].m ==> SameView(h, n - 1, h', n' - 1, h[v.cell].m[k])
    ensures Reaches(h', v, n', a) <==> Reaches(h, v, n, a)
  {
    var m := h[v.cell].m;
    assert forall k :: k in m ==> (Reaches(h', m[k], n' - 1, a) <==> Reaches(h, m[k], n - 1, a));
  }

  lemma {:induction false} SliceView(h: Heap, n: nat, h': Heap, n': nat, v: Value)
    requires v.Slice? && Bounded(h, v, n) && n' > 0 && v.cell < |h'| && h'[v.cell] == h[v.cell]
    requires forall i :: v.off <= i < v.off + v.len ==> SameView(h, n - 1, h', n' - 1, h[v.cell].elems[i])
    ensures SameView(h, n, h', n', v)
  {
    var es := h[v.cell].elems;
    forall a: Addr ensures Reaches(h', v, n', a) <==> Reaches(h, v, n, a) {
      if a != v.cell {
        assert forall i :: v.off <= i < v.off + v.len ==>
            (Reaches(h', es[i], n' - 1, a) <==> Reaches(h, es[i], n - 1, a));
      }
    }
  }

  lemma {:induction false} ArrayView(h: Heap, n: nat, h': Heap, n': nat, v: Value)
    requires v.Array? && Bounded(h, v, n)
    requires forall i :: 0 <= i < |v.elems| ==> SameView(h, n, h', n', v.elems[i])
    ensures SameView(h, n, h', n', v)
  {
    forall a: Addr ensures Reaches(h', v, n', a) <==> Reaches(h, v, n, a) {
      assert forall i :: 0 <= i < |v.elems| ==>
          (Reaches(h', v.elems[i], n', a) <==> Reaches(h, v.elems[i], n, a));
    }
  }

  lemma {:induction false} StructView(h: Heap, n: nat, h': Heap, n': nat, v: Value)
    requires v.Struct? && Bounded(h, v, n)
    requires forall i :: 0 <= i < |v.fields| ==> SameView(h, n, h', n', v.fields[i].v)
    ensures SameView(h, n, h', n', v)
  {
    forall a: Addr ensures Reaches(h', v, n', a) <==> Reaches(h, v, n, a) {
      assert forall i :: 0 <= i < |v.fields| ==>
          (Reaches(h', v.fields[i].v, n', a) <==> Reaches(h, v.fields[i].v, n, a));
    }
  }

  /** A value does not notice changes to cells it cannot reach. */
  lemma {:induction false} Frame(h: Heap, h': Heap, v: Value, n: nat)
    requires Bounded(h, v, n) && AgreeOn(h, h', v, n)
    ensures SameView(h, n, h', n, v)
    decreases n, v
  {
    match v
    case Leaf(_, _) =>
    case Handle(_, _) =>
    case Nil(_) =>
    case Ptr(_, b) =>
      assert Reaches(h, v, n, b);
      FrameChild(h, h', v, n, h[b].v, n - 1);
    case Map(_, b) =>
      assert Reaches(h, v, n, b);
      forall k | k in h[b].m ensures SameView(h, n - 1, h', n - 1, h[b].m[k]) {
        FrameChild(h, h', v, n, h[b].m[k], n - 1);
      }
      MapView(h, n, h', n, v);
    case Slice(_, b, off, len) =>
      assert Reaches(h, v, n, b);
      forall i | off <= i < off + len ensures SameView(h, n - 1, h', n - 1, h[b].elems[i]) {
        FrameChild(h, h', v, n, h[b].elems[i], n - 1);
      }
      SliceView(h, n, h', n, v);
    case Iface(_, d) =>
      FrameChild(h, h', v, n, d, n);
    case Array(_, es) =>
      forall i | 0 <= i < |es| ensures SameView(h, n, h', n, es[i]) {
        FrameChild(h, h', v, n, es[i], n);
      }
      ArrayView(h, n, h', n, v);
    case Struct(_, fs) =>
      forall i | 0 <= i < |fs| ensures SameView(h, n, h', n, fs[i].v) {
        FrameChild(h, h', v, n, fs[i].v, n);
      }
      StructView(h, n, h', n, v);
  }

  lemma {:induction false} FrameChild(h: Heap, h': Heap, v: Value, n: nat, c: Value, m: nat)
    requires Bounded(h, v, n) && AgreeOn(h, h', v, n)
    requires Bounded(h, c, m) && (m < n || (m == n && c < v))
    requires forall a: Addr :: Reaches(h, c, m, a) ==> Reaches(h, v, n, a)
    ensures SameView(h, m, h', m, c)
    decreases n, v, 0
  {
    assert AgreeOn(h, h', c, m);
    Frame(h, h', c, m);
  }

  /** The bound on reference chains carries no information beyond being large enough. */
  lemma {:induction false} BoundIrrelevant(h: Heap, n: nat, n': nat, v: Value)
    requires Bounded(h, v, n) && n <= n'
    ensures SameView(h, n, h, n', v)
    decreases n, v
  {
    match v
    case Leaf(_, _) =>
    case Handle(_, _) =>
    case Nil(_) =>
    case Ptr(_, b) => BoundIrrelevant(h, n - 1, n' - 1, h[b].v);
    case Map(_, b) =>
      forall k | k in h[b].m ensures SameView(h, n - 1, h, n' - 1, h[b].m[k]) {
        BoundIrrelevant(h, n - 1, n' - 1, h[b].m[k]);
      }
      MapView(h, n, h, n', v);
    case Slice(_, b, off, len) =>
      forall i | off <= i < off + len ensures SameView(h, n - 1, h, n' - 1, h[b].elems[i]) {
        BoundIrrelevant(h, n - 1, n' - 1, h[b].elems[i]);
      }
      SliceView(h, n, h, n', v);
    case Iface(_, d) => BoundIrrelevant(h, n, n', d);
    case Array(_, es) =>
      forall i | 0 <= i < |es| ensures SameView(h, n, h, n', es[i]) {
        BoundIrrelevant(h, n, n', es[i]);
      }
      ArrayView(h, n, h, n', v);
    case Struct(_, fs) =>
      forall i | 0 <= i < |fs| ensures SameView(h, n, h, n', fs[i].v) {
        BoundIrrelevant(h, n, n', fs[i].v);
      }
      StructView(h, n, h, n', v);
  }
}
