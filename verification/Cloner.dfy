/**
 The reflective deep copy of pkg/conversion/cloner.go. The memory is updated in place; a registered
 copy function is any function that meets HonestOn.
 */
module Cloner {
  import opened GoValues
  import opened ClonerSpec
  import opened Reachability
  import opened Wrappers

  class Memory {
    var cells: Heap

    constructor ()
      ensures cells == []
    {
      cells := [];
    }

    method Alloc(c: Cell) returns (a: Addr)
      modifies this
      ensures cells == old(cells) + [c] && a == |old(cells)|
    {
      a := |cells|;
      cells := cells + [c];
    }

    method Store(a: Addr, c: Cell)
      requires a < |cells|
      modifies this
      ensures cells == old(cells)[a := c]
    {
      cells := cells[a := c];
    }
  }

  datatype FnResult = FnResult(heap: Heap, ok: bool)

  /** A copy function: memory, the pointer to copy from, and the address of the cell to fill. */
  type CopyFn = (Heap, Value, Addr) -> FnResult

  /**
   Changes no existing cell but the one it fills; on success that cell heads a copy that shares at most what
   the default copy would: cells below structs with unexported fields.
   */
  ghost predicate HonestOn(f: CopyFn, h: Heap, src: Value, out: Addr, n: nat) {
    src.Ptr? && Bounded(h, src, n) && out < |h| && h[out].PtrCell? && !Reaches(h, src, n, out) ==>
      var r := f(h, src, out);
      && |h| <= |r.heap|
      && (forall a :: 0 <= a < |h| && a != out ==> r.heap[a] == h[a])
      && (r.ok ==>
            var w := Ptr(src.t, out);
            && Bounded(r.heap, w, n)
            && Unfold(r.heap, w, n) == Unfold(h, src, n)
            && forall a: Addr :: a < |h| && a != out && Reaches(r.heap, w, n, a) ==> Shares({}, h, src, n, a))
  }

  ghost predicate Honest(f: CopyFn) {
    forall h, src, out, n :: HonestOn(f, h, src, out, n)
  }

  /** The one function a new cloner starts with: copy a byte slice without visiting every byte. */
  function ByteSliceDeepCopy(h: Heap, src: Value, out: Addr): FnResult {
    if !src.Ptr? || src.cell >= |h| || out >= |h| || !h[src.cell].PtrCell? then FnResult(h, false)
    else
      match h[src.cell].v
      case Nil(t) => FnResult(h[out := PtrCell(Nil(t))], true)
      case Slice(t, a, off, len) =>
        if a < |h| && h[a].ArrayCell? && off + len <= |h[a].elems| &&
           (forall i :: off <= i < off + len ==> h[a].elems[i].Leaf?)
        then FnResult(h[out := PtrCell(Slice(t, |h|, 0, len))] + [ArrayCell(h[a].elems[off..off + len])], true)
        else FnResult(h, false)
      case _ => FnResult(h, false)
  }

  lemma {:induction false} ByteSliceDeepCopyIsHonest()
    ensures Honest(ByteSliceDeepCopy)
  {
    forall h: Heap, src: Value, out: Addr, n: nat ensures HonestOn(ByteSliceDeepCopy, h, src, out, n) {
      var r := ByteSliceDeepCopy(h, src, out);
      if src.Ptr? && Bounded(h, src, n) && out < |h| && h[out].PtrCell? && !Reaches(h, src, n, out) && r.ok {
        if h[src.cell].v.Slice? {
          ByteSliceCopied(h, src, out, n);
        }
      }
    }
  }

  lemma {:induction false} ByteSliceCopied(h: Heap, src: Value, out: Addr, n: nat)
    requires src.Ptr? && Bounded(h, src, n) && out < |h| && h[out].PtrCell? && !Reaches(h, src, n, out)
    requires h[src.cell].v.Slice? && ByteSliceDeepCopy(h, src, out).ok
    ensures HonestOn(ByteSliceDeepCopy, h, src, out, n)
  {
    var h', s := ByteSliceDeepCopy(h, src, out).heap, h[src.cell].v;
    var c := h'[out].v;
    assert c == Slice(s.t, |h|, 0, s.len) && h'[|h|] == ArrayCell(h[s.cell].elems[s.off..s.off + s.len]);
    LeavesCopied(h, s, h', c, n - 1);
  }

  /** A fresh array of leaves is a copy and reaches nothing else. */
  lemma {:induction false} LeavesCopied(h: Heap, s: Value, h': Heap, c: Value, n: nat)
    requires s.Slice? && Bounded(h, s, n) && c == Slice(s.t, |h|, 0, s.len) && |h| < |h'|
    requires h'[|h|] == ArrayCell(h[s.cell].elems[s.off..s.off + s.len])
    requires forall i :: s.off <= i < s.off + s.len ==> h[s.cell].elems[i].Leaf?
    ensures Bounded(h', c, n) && Unfold(h', c, n) == Unfold(h, s, n)
    ensures forall a: Addr :: Reaches(h', c, n, a) ==> a == |h|
  {
    var es, copied := h[s.cell].elems, h'[|h|].elems;
    assert forall i :: 0 <= i < s.len ==> copied[i] == es[s.off + i] && es[s.off + i].Leaf?;
    assert Bounded(h', c, n);
    forall i | 0 <= i < s.len ensures Unfold(h', copied[i], n - 1) == Unfold(h, es[s.off + i], n - 1) {
    }
    assert Unfold(h', c, n).elems == Unfold(h, s, n).elems;
    forall a: Addr | a != |h| ensures !Reaches(h', c, n, a) {
      assert forall i :: 0 <= i < s.len ==> !Reaches(h', copied[i], n - 1, a);
    }
  }

  /**
   Copying by assignment a value with unexported fields, as the generated functions do with times: the copy
   keeps the pointers in those fields, which is no more than the default copy does.
   */
  function AssignmentDeepCopy(h: Heap, src: Value, out: Addr): FnResult {
    if src.Ptr? && src.cell < |h| && out < |h| && h[src.cell].PtrCell? && h[src.cell].v.Struct?
       && !AllSettable(h[src.cell].v.fields)
    then FnResult(h[out := h[src.cell]], true)
    else FnResult(h, false)
  }

  lemma {:induction false} AssignmentDeepCopyIsHonest()
    ensures Honest(AssignmentDeepCopy)
  {
    forall h: Heap, src: Value, out: Addr, n: nat ensures HonestOn(AssignmentDeepCopy, h, src, out, n) {
      AssignmentCopied(h, src, out, n);
    }
  }

  lemma {:induction false} WriteElsewhere(h: Heap, v: Value, n: nat, d: Addr, c: Cell)
    requires Bounded(h, v, n) && d < |h| && !Reaches(h, v, n, d)
    ensures AgreeOn(h, h[d := c], v, n)
  {
    forall a: Addr | Reaches(h, v, n, a) ensures a < |h| {
      ReachesInside(h, v, n, a);
    }
  }

  lemma {:induction false} AssignmentCopied(h: Heap, src: Value, out: Addr, n: nat)
    ensures HonestOn(AssignmentDeepCopy, h, src, out, n)
  {
    if src.Ptr? && Bounded(h, src, n) && out < |h| && h[out].PtrCell? && !Reaches(h, src, n, out) {
      var v, h' := h[src.cell].v, h[out := h[src.cell]];
      assert !Reaches(h, v, n - 1, out) && src.cell != out;
      WriteElsewhere(h, v, n - 1, out, h[src.cell]);
      Frame(h, h', v, n - 1);
    }
  }

  /** And it does copy every such struct: the new cell holds the same contents, and nothing else moves. */
  lemma {:induction false} AssignmentFills(h: Heap, src: Value, out: Addr)
    requires src.Ptr? && src.cell < |h| && out < |h| && h[src.cell].PtrCell? && h[src.cell].v.Struct?
    requires exists i :: 0 <= i < |h[src.cell].v.fields| && !h[src.cell].v.fields[i].settable
    ensures AssignmentDeepCopy(h, src, out) == FnResult(h[out := h[src.cell]], true)
  {
  }

  // ----- the cases of defaultDeepCopy put together -----

  lemma {:induction false} KeptByGrowth(reg: set<TypeId>, h: Heap, v: Value, h1: Heap, w: Value, h2: Heap, n: nat, d: Addr)
    requires CopiedAs(reg, h, v, h1, w, n) && h1 <= h2 && !Reaches(h1, w, n, d)
    ensures CopiedAs(reg, h, v, h2, w, n) && !Reaches(h2, w, n, d)
  {
    Grown(h1, h2, w, n);
    ViewKept(reg, h, v, h1, w, h2, n);
  }

  lemma {:induction false} KeptByWrite(reg: set<TypeId>, h: Heap, v: Value, h1: Heap, w: Value, n: nat, d: Addr, c: Cell)
    requires CopiedAs(reg, h, v, h1, w, n) && d < |h1| && !Reaches(h1, w, n, d)
    ensures CopiedAs(reg, h, v, h1[d := c], w, n) && !Reaches(h1[d := c], w, n, d)
  {
    forall a: Addr | Reaches(h1, w, n, a) ensures a < |h1| {
      ReachesInside(h1, w, n, a);
    }
    CopyKept(reg, h, v, h1, w, h1[d := c], n);
  }

  lemma {:induction false} PtrCopied(reg: set<TypeId>, h: Heap, src: Value, h': Heap, d: Addr, w: Value, n: nat)
    requires src.Ptr? && src.t !in reg && Bounded(h, src, n)
    requires |h| <= d < |h'| && h'[d] == PtrCell(w)
    requires CopiedAs(reg, h, h[src.cell].v, h', w, n - 1)
    ensures CopiedAs(reg, h, src, h', Ptr(src.t, d), n)
  {
    forall a: Addr | a < |h| ensures SharesBetween(reg, h, src, h', Ptr(src.t, d), n, a) {
      assert SharesBetween(reg, h, h[src.cell].v, h', w, n - 1, a);
    }
  }

  lemma {:induction false} MapCopied(reg: set<TypeId>, h: Heap, src: Value, h': Heap, d: Addr, out: map<Value, Value>, n: nat)
    requires src.Map? && Bounded(h, src, n)
    requires |h| <= d < |h'| && h'[d] == MapCell(out) && out.Keys == h[src.cell].m.Keys
    requires MapPartCopied(reg, h, h[src.cell].m, h', out, n - 1, d)
    ensures CopiedAs(reg, h, src, h', Map(src.t, d), n) && Copyable(reg, Any(), h, src, n)
  {
    var m, w := h[src.cell].m, Map(src.t, d);
    assert forall k :: k in out ==> k in m;
    forall a: Addr | a < |h| ensures SharesBetween(reg, h, src, h', w, n, a) {
      MapShares(reg, h, src, h', d, out, n, a);
    }
    assert Unfold(h', w, n).m == Unfold(h, src, n).m;
  }

  lemma {:induction false} MapShares(
    reg: set<TypeId>, h: Heap, src: Value, h': Heap, d: Addr, out: map<Value, Value>, n: nat, a: Addr)
    requires src.Map? && Bounded(h, src, n) && Bounded(h', Map(src.t, d), n)
    requires a < |h| <= d < |h'| && h'[d] == MapCell(out) && out.Keys == h[src.cell].m.Keys
    requires forall k :: k in out ==> Bounded(h', out[k], n - 1) && SharesBetween(reg, h, h[src.cell].m[k], h', out[k], n - 1, a)
    ensures SharesBetween(reg, h, src, h', Map(src.t, d), n, a)
  {
    var m := h[src.cell].m;
    if Shares(reg, h, src, n, a) {
      var k :| k in m && Shares(reg, h, m[k], n - 1, a);
      assert k in out && Reaches(h', out[k], n - 1, a);
    }
    if Reaches(h', Map(src.t, d), n, a) {
      var k :| k in out && Reaches(h', out[k], n - 1, a);
      assert k in m && Shares({}, h, m[k], n - 1, a);
    }
  }

  lemma {:induction false} SliceCopied(
    reg: set<TypeId>, h: Heap, src: Value, h': Heap, d: Addr, es: seq<Value>, out: seq<Value>, n: nat)
    requires src.Slice? && Bounded(h, src, n)
    requires es == h[src.cell].elems[src.off..src.off + src.len]
    requires |h| <= d < |h'| && h'[d] == ArrayCell(out) && |out| == src.len
    requires ListCopied(reg, h, es, h', out, n - 1)
    ensures CopiedAs(reg, h, src, h', Slice(src.t, d, 0, |out|), n) && Copyable(reg, Any(), h, src, n)
  {
    var all, w := h[src.cell].elems, Slice(src.t, d, 0, |out|);
    assert forall i :: src.off <= i < src.off + src.len ==> all[i] == es[i - src.off];
    forall a: Addr | a < |h| ensures SharesBetween(reg, h, src, h', w, n, a) {
      assert forall j :: 0 <= j < |out| ==> SharesBetween(reg, h, es[j], h', out[j], n - 1, a);
      SliceBetween(reg, h, src, h', d, es, out, n, a);
    }
    assert Unfold(h', w, n).elems == Unfold(h, src, n).elems;
  }

  lemma {:induction false} SliceBetween(
    reg: set<TypeId>, h: Heap, src: Value, h': Heap, d: Addr, es: seq<Value>, out: seq<Value>, n: nat, a: Addr)
    requires src.Slice? && Bounded(h, src, n) && Bounded(h', Slice(src.t, d, 0, |out|), n)
    requires es == h[src.cell].elems[src.off..src.off + src.len]
    requires a < |h| <= d < |h'| && h'[d] == ArrayCell(out) && |out| == |es|
    requires forall j :: 0 <= j < |es| ==> Bounded(h, es[j], n - 1) && SharesBetween(reg, h, es[j], h', out[j], n - 1, a)
    ensures SharesBetween(reg, h, src, h', Slice(src.t, d, 0, |out|), n, a)
  {
    SliceShares(reg, h, src, es, n, a);
    SliceShares({}, h, src, es, n, a);
  }

  lemma {:induction false} SliceShares(reg: set<TypeId>, h: Heap, src: Value, es: seq<Value>, n: nat, a: Addr)
    requires src.Slice? && Bounded(h, src, n)
    requires es == h[src.cell].elems[src.off..src.off + src.len]
    ensures forall j :: 0 <= j < |es| ==> Bounded(h, es[j], n - 1)
    ensures Shares(reg, h, src, n, a) <==> exists j :: 0 <= j < |es| && Shares(reg, h, es[j], n - 1, a)
  {
    var all := h[src.cell].elems;
    assert forall j :: 0 <= j < |es| ==> es[j] == all[src.off + j];
    if Shares(reg, h, src, n, a) {
      var i :| src.off <= i < src.off + src.len && Shares(reg, h, all[i], n - 1, a);
      assert Shares(reg, h, es[i - src.off], n - 1, a);
    }
  }

  lemma {:induction false} ArrayCopied(reg: set<TypeId>, h: Heap, src: Value, h': Heap, out: seq<Value>, n: nat)
    requires src.Array? && Bounded(h, src, n) && |out| == |src.elems|
    requires ListCopied(reg, h, src.elems, h', out, n)
    ensures CopiedAs(reg, h, src, h', Array(src.t, out), n) && Copyable(reg, Any(), h, src, n)
  {
    var w := Array(src.t, out);
    forall a: Addr | a < |h| ensures SharesBetween(reg, h, src, h', w, n, a) {
      assert forall j :: 0 <= j < |out| ==> SharesBetween(reg, h, src.elems[j], h', out[j], n, a);
    }
    assert Unfold(h', w, n).elems == Unfold(h, src, n).elems;
  }

  ghost function FieldValues(fs: seq<Field>): (vs: seq<Value>)
    ensures |vs| == |fs| && forall i :: 0 <= i < |fs| ==> vs[i] == fs[i].v
  {
    seq(|fs|, i requires 0 <= i < |fs| => fs[i].v)
  }

  function WithValues(fs: seq<Field>, vs: seq<Value>): (r: seq<Field>)
    requires |vs| == |fs|
    ensures |r| == |fs| && forall i :: 0 <= i < |fs| ==> r[i] == fs[i].(v := vs[i])
  {
    seq(|fs|, i requires 0 <= i < |fs| => fs[i].(v := vs[i]))
  }

  lemma {:induction false} StructCopied(reg: set<TypeId>, h: Heap, src: Value, h': Heap, out: seq<Value>, n: nat)
    requires src.Struct? && Bounded(h, src, n) && |out| == |src.fields| && AllSettable(src.fields)
    requires ListCopied(reg, h, FieldValues(src.fields), h', out, n)
    ensures CopiedAs(reg, h, src, h', Struct(src.t, WithValues(src.fields, out)), n) && Copyable(reg, Any(), h, src, n)
  {
    var vs, w := FieldValues(src.fields), Struct(src.t, WithValues(src.fields, out));
    forall a: Addr | a < |h| ensures SharesBetween(reg, h, src, h', w, n, a) {
      assert forall j :: 0 <= j < |out| ==> SharesBetween(reg, h, vs[j], h', out[j], n, a);
    }
    assert Unfold(h', w, n).fields == Unfold(h, src, n).fields;
  }

  lemma {:induction false} ReturnedAsIs(reg: set<TypeId>, h: Heap, src: Value, h': Heap, n: nat)
    requires Bounded(h, src, n) && h <= h'
    requires src.Leaf? || src.Nil? || (src.Struct? && !AllSettable(src.fields))
    ensures CopiedAs(reg, h, src, h', src, n)
  {
    Grown(h, h', src, n);
  }

  /** What one copying call promises: only new cells, a true copy, and failure just when it must. */
  ghost predicate Outcome(reg: set<TypeId>, sure: iset<Value>, h: Heap, src: Value, h': Heap, w: Value, ok: bool, n: nat)
    requires Bounded(h, src, n)
  {
    && h <= h'
    && (ok ==> CopiedAs(reg, h, src, h', w, n))
    && (ok ==> Copyable(reg, Any(), h, src, n))
    && (Copyable(reg, sure, h, src, n) ==> ok)
  }

  /**
   Where no registered type is met, or only pointers for which the functions are sure to succeed, a copy succeeds
   exactly when there is no channel, function or raw pointer.
   */
  lemma {:induction false} SuccessIsExact(reg: set<TypeId>, sure: iset<Value>, h: Heap, src: Value, h': Heap, w: Value, ok: bool, n: nat)
    requires Bounded(h, src, n) && Outcome(reg, sure, h, src, h', w, ok, n) && OnlySureMet(reg, sure, h, src, n)
    ensures ok <==> Copyable(reg, Any(), h, src, n)
  {
    SureIsEnough(reg, sure, h, src, n);
  }

  lemma {:induction false} IfaceOutcome(reg: set<TypeId>, sure: iset<Value>, h: Heap, src: Value, h': Heap, r: Value, ok: bool, n: nat)
    requires src.Iface? && Bounded(h, src, n) && Outcome(reg, sure, h, src.dyn, h', r, ok, n)
    ensures Outcome(reg, sure, h, src, h', Iface(src.t, r), ok, n)
  {
    if ok {
      assert !Unfold(h, src.dyn, n).TIface?;
      assert !r.Iface?;
      var w := Iface(src.t, r);
      assert Bounded(h', w, n) && Unfold(h', w, n) == TIface(src.t, Unfold(h', r, n));
      forall a: Addr | a < |h| ensures SharesBetween(reg, h, src, h', w, n, a) {
        assert SharesBetween(reg, h, src.dyn, h', r, n, a);
      }
    }
  }

  ghost predicate Clear(h: Heap, w: Value, n: nat, d: Addr) {
    Bounded(h, w, n) && !Reaches(h, w, n, d)
  }

  /** The first |ws| values could be copied and have been. */
  ghost predicate ListCopied(reg: set<TypeId>, h: Heap, vs: seq<Value>, h': Heap, ws: seq<Value>, n: nat) {
    && |ws| <= |vs|
    && forall j :: 0 <= j < |ws| ==> CopiedAs(reg, h, vs[j], h', ws[j], n) && Copyable(reg, Any(), h, vs[j], n)
  }

  lemma {:induction false} ListStep(
    reg: set<TypeId>, h: Heap, vs: seq<Value>, h1: Heap, ws: seq<Value>, h2: Heap, w: Value, n: nat)
    requires ListCopied(reg, h, vs, h1, ws, n) && |ws| < |vs| && h1 <= h2
    requires CopiedAs(reg, h, vs[|ws|], h2, w, n) && Copyable(reg, Any(), h, vs[|ws|], n)
    ensures ListCopied(reg, h, vs, h2, ws + [w], n)
  {
    forall j | 0 <= j < |ws| ensures CopiedAs(reg, h, vs[j], h2, ws[j], n) {
      Grown(h1, h2, ws[j], n);
      ViewKept(reg, h, vs[j], h1, ws[j], h2, n);
    }
  }

  ghost predicate AllClear(h: Heap, ws: seq<Value>, n: nat, d: Addr) {
    forall j :: 0 <= j < |ws| ==> Clear(h, ws[j], n, d)
  }

  lemma {:induction false} ListClearStep(h1: Heap, ws: seq<Value>, h2: Heap, w: Value, n: nat, d: Addr)
    requires AllClear(h1, ws, n, d) && h1 <= h2 && Clear(h2, w, n, d)
    ensures AllClear(h2, ws + [w], n, d)
  {
    forall j | 0 <= j < |ws| ensures Clear(h2, ws[j], n, d) {
      Grown(h1, h2, ws[j], n);
    }
  }

  lemma {:induction false} ListWrite(reg: set<TypeId>, h: Heap, vs: seq<Value>, h1: Heap, ws: seq<Value>, n: nat, d: Addr, c: Cell)
    requires ListCopied(reg, h, vs, h1, ws, n) && AllClear(h1, ws, n, d) && d < |h1|
    ensures ListCopied(reg, h, vs, h1[d := c], ws, n) && AllClear(h1[d := c], ws, n, d)
  {
    forall j | 0 <= j < |ws|
      ensures CopiedAs(reg, h, vs[j], h1[d := c], ws[j], n) && Clear(h1[d := c], ws[j], n, d)
    {
      KeptByWrite(reg, h, vs[j], h1, ws[j], n, d, c);
    }
  }

  /** The values stored under the keys of `out` could be copied and have been, clear of cell d. */
  ghost predicate MapPartCopied(
    reg: set<TypeId>, h: Heap, m: map<Value, Value>, h': Heap, out: map<Value, Value>, n: nat, d: Addr)
  {
    && out.Keys <= m.Keys
    && forall k :: k in out ==>
         CopiedAs(reg, h, m[k], h', out[k], n) && Clear(h', out[k], n, d) && Copyable(reg, Any(), h, m[k], n)
  }

  lemma {:induction false} MapStep(
    reg: set<TypeId>, h: Heap, m: map<Value, Value>, h1: Heap, out: map<Value, Value>, h2: Heap,
    k: Value, w: Value, n: nat, d: Addr, c: Cell)
    requires MapPartCopied(reg, h, m, h1, out, n, d) && k in m && h1 <= h2 && d < |h1|
    requires CopiedAs(reg, h, m[k], h2, w, n) && Clear(h2, w, n, d) && Copyable(reg, Any(), h, m[k], n)
    ensures MapPartCopied(reg, h, m, h2[d := c], out[k := w], n, d)
  {
    var out' := out[k := w];
    forall j | j in out'
      ensures CopiedAs(reg, h, m[j], h2[d := c], out'[j], n) && Clear(h2[d := c], out'[j], n, d)
    {
      if j != k {
        KeptByGrowth(reg, h, m[j], h1, out[j], h2, n, d);
      }
      KeptByWrite(reg, h, m[j], h2, out'[j], n, d, c);
    }
  }

  /** Between two rounds of the loop over a map. */
  ghost predicate MapState(
    reg: set<TypeId>, h: Heap, m: map<Value, Value>, h': Heap, out: map<Value, Value>, n: nat, d: Addr)
  {
    h <= h' && d == |h| < |h'| && h'[d] == MapCell(out) && MapPartCopied(reg, h, m, h', out, n, d)
  }

  /** Between two rounds of the loop over a slice. */
  ghost predicate SliceState(
    reg: set<TypeId>, h: Heap, es: seq<Value>, h': Heap, out: seq<Value>, n: nat, d: Addr)
  {
    && h <= h' && d == |h| < |h'| && h'[d] == ArrayCell(out)
    && ListCopied(reg, h, es, h', out, n) && AllClear(h', out, n, d)
  }

  lemma {:induction false} MapDone(reg: set<TypeId>, sure: iset<Value>, h: Heap, src: Value, h': Heap, d: Addr, out: map<Value, Value>, n: nat)
    requires src.Map? && Bounded(h, src, n)
    requires MapState(reg, h, h[src.cell].m, h', out, n - 1, d) && out.Keys == h[src.cell].m.Keys
    ensures Outcome(reg, sure, h, src, h', Map(src.t, d), true, n)
  {
    MapCopied(reg, h, src, h', d, out, n);
  }

  lemma {:induction false} MapFailed(reg: set<TypeId>, sure: iset<Value>, h: Heap, src: Value, h': Heap, k: Value, n: nat)
    requires src.Map? && Bounded(h, src, n) && h <= h'
    requires k in h[src.cell].m && !Copyable(reg, sure, h, h[src.cell].m[k], n - 1)
    ensures Outcome(reg, sure, h, src, h', src, false, n)
  {
  }

  lemma {:induction false} SliceDone(
    reg: set<TypeId>, sure: iset<Value>, h: Heap, src: Value, h': Heap, d: Addr, es: seq<Value>, out: seq<Value>, n: nat)
    requires src.Slice? && Bounded(h, src, n) && es == h[src.cell].elems[src.off..src.off + src.len]
    requires SliceState(reg, h, es, h', out, n - 1, d) && |out| == src.len
    ensures Outcome(reg, sure, h, src, h', Slice(src.t, d, 0, src.len), true, n)
  {
    SliceCopied(reg, h, src, h', d, es, out, n);
  }

  lemma {:induction false} ElementsBounded(h: Heap, src: Value, es: seq<Value>, n: nat)
    requires src.Slice? && Bounded(h, src, n) && es == h[src.cell].elems[src.off..src.off + src.len]
    ensures forall j :: 0 <= j < |es| ==> Bounded(h, es[j], n - 1)
  {
    assert forall j :: 0 <= j < |es| ==> es[j] == h[src.cell].elems[src.off + j];
  }

  lemma {:induction false} SliceFailed(
    reg: set<TypeId>, sure: iset<Value>, h: Heap, src: Value, h': Heap, es: seq<Value>, i: nat, n: nat)
    requires src.Slice? && Bounded(h, src, n) && es == h[src.cell].elems[src.off..src.off + src.len] && h <= h'
    requires i < |es| && Bounded(h, es[i], n - 1) && !Copyable(reg, sure, h, es[i], n - 1)
    ensures Outcome(reg, sure, h, src, h', src, false, n)
  {
    assert es[i] == h[src.cell].elems[src.off + i];
  }

  lemma {:induction false} StructDone(reg: set<TypeId>, sure: iset<Value>, h: Heap, src: Value, h': Heap, out: seq<Value>, n: nat)
    requires src.Struct? && Bounded(h, src, n) && h <= h'
    requires |out| == |src.fields| == SettablePrefix(src.fields)
    requires ListCopied(reg, h, FieldValues(src.fields), h', out, n)
    ensures Outcome(reg, sure, h, src, h', Struct(src.t, WithValues(src.fields, out)), true, n)
  {
    StructCopied(reg, h, src, h', out, n);
  }

  /** At an unsettable field the struct itself is the result. */
  lemma {:induction false} StructKept(reg: set<TypeId>, sure: iset<Value>, h: Heap, src: Value, h': Heap, i: nat, out: seq<Value>, n: nat)
    requires src.Struct? && Bounded(h, src, n) && h <= h'
    requires |out| == i < |src.fields| && i <= SettablePrefix(src.fields) && !src.fields[i].settable
    requires ListCopied(reg, h, FieldValues(src.fields), h', out, n)
    ensures Outcome(reg, sure, h, src, h', src, true, n)
  {
    ReturnedAsIs(reg, h, src, h', n);
    assert i == SettablePrefix(src.fields);
    forall j | 0 <= j < i ensures Copyable(reg, Any(), h, src.fields[j].v, n) {
      assert FieldValues(src.fields)[j] == src.fields[j].v;
    }
  }

  lemma {:induction false} StructFailed(reg: set<TypeId>, sure: iset<Value>, h: Heap, src: Value, h': Heap, i: nat, n: nat)
    requires src.Struct? && Bounded(h, src, n) && h <= h' && i < SettablePrefix(src.fields)
    requires !Copyable(reg, sure, h, src.fields[i].v, n)
    ensures Outcome(reg, sure, h, src, h', src, false, n)
  {
  }

  /** What an honest function fills in is a copy of the original as it was before the cell was made. */
  lemma {:induction false} FilledIsCopied(reg: set<TypeId>, h: Heap, h1: Heap, src: Value, h': Heap, out: Addr, n: nat)
    requires src.Ptr? && src.t in reg && Bounded(h, src, n) && h <= h1 && out == |h| < |h1|
    requires Bounded(h1, src, n) && Bounded(h', Ptr(src.t, out), n)
    requires Unfold(h', Ptr(src.t, out), n) == Unfold(h1, src, n)
    requires forall a: Addr :: a < |h1| && a != out && Reaches(h', Ptr(src.t, out), n, a) ==> Shares({}, h1, src, n, a)
    ensures CopiedAs(reg, h, src, h', Ptr(src.t, out), n)
  {
    Grown(h, h1, src, n);
    forall a: Addr | a < |h| ensures SharesBetween(reg, h, src, h', Ptr(src.t, out), n, a) {
      GrownShares({}, h, h1, src, n, a);
    }
  }

  // ----- the cloner -----

  class Cloner {
    var deepCopyFuncs: map<TypeId, CopyFn>
    var generatedDeepCopyFuncs: map<TypeId, CopyFn>
    /** The zero value that reflect.New puts into a fresh cell for a pointer of the given type. */
    const zero: TypeId -> Value

    ghost predicate Valid()
      reads this
    {
      && (forall t :: t in deepCopyFuncs ==> Honest(deepCopyFuncs[t]))
      && (forall t :: t in generatedDeepCopyFuncs ==> Honest(generatedDeepCopyFuncs[t]))
    }

    ghost function Reg(): set<TypeId>
      reads this
    {
      deepCopyFuncs.Keys + generatedDeepCopyFuncs.Keys
    }

    ghost function Func(t: TypeId): CopyFn
      requires t in Reg()
      reads this
    {
      if t in deepCopyFuncs then deepCopyFuncs[t] else generatedDeepCopyFuncs[t]
    }

    /** The pointers whose registered function succeeds in h and in every memory that h may grow into. */
    ghost function Sure(h: Heap): iset<Value>
      reads this
    {
      iset v: Value | v.Ptr? && v.t in Reg() && forall h' :: h <= h' ==> Func(v.t)(h' + [PtrCell(zero(v.t))], v, |h'|).ok
    }

    /**
     What copying a pointer of a registered type comes to: the function registered by hand, or else the
     generated one, has been called on memory with one new cell in it and has filled that cell.
     */
    ghost predicate Filled(h: Heap, src: Value, h': Heap, r: Option<Value>, ok: bool)
      requires src.Ptr? && src.t in Reg()
      reads this
    {
      var res := Func(src.t)(h + [PtrCell(zero(src.t))], src, |h|);
      ok == res.ok && h' == res.heap && (ok ==> r == Some(Ptr(src.t, |h|)))
    }

    /** NewCloner: `bytes` is the pointer type whose pointees are byte slices. */
    constructor (zero: TypeId -> Value, bytes: TypeId)
      ensures Valid() && Reg() == {bytes} && this.zero == zero
      ensures deepCopyFuncs == map[bytes := ByteSliceDeepCopy] && generatedDeepCopyFuncs == map[]
    {
      var funcs: map<TypeId, CopyFn> := map[bytes := ByteSliceDeepCopy];
      this.zero := zero;
      deepCopyFuncs, generatedDeepCopyFuncs := funcs, map[];
      ByteSliceDeepCopyIsHonest();
    }

    method RegisterDeepCopyFunc(t: TypeId, f: CopyFn)
      modifies this`deepCopyFuncs
      ensures deepCopyFuncs == old(deepCopyFuncs)[t := f]
      ensures old(Valid()) && Honest(f) ==> Valid()
    {
      deepCopyFuncs := deepCopyFuncs[t := f];
    }

    method RegisterGeneratedDeepCopyFunc(t: TypeId, f: CopyFn)
      modifies this`generatedDeepCopyFuncs
      ensures generatedDeepCopyFuncs == old(generatedDeepCopyFuncs)[t := f]
      ensures old(Valid()) && Honest(f) ==> Valid()
    {
      generatedDeepCopyFuncs := generatedDeepCopyFuncs[t := f];
    }

    /** DeepCopy of an interface value; nil comes back as nil. */
    method DeepCopy(mem: Memory, input: Option<Value>, ghost n: nat) returns (r: Option<Value>, ok: bool)
      requires Valid()
      requires input.Some? ==> !input.value.Iface? && Bounded(mem.cells, input.value, n)
      modifies mem
      ensures old(mem.cells) <= mem.cells
      ensures input.None? ==> r == None && ok && mem.cells == old(mem.cells)
      ensures input.Some? ==> (ok <==> r.Some?)
      ensures input.Some? && ok ==> CopiedAs(Reg(), old(mem.cells), input.value, mem.cells, r.value, n)
      ensures input.Some? && ok && Closed(old(mem.cells)) ==>
                forall a: Addr :: a < |old(mem.cells)| ==>
                  KeepsBetween(Reg(), old(mem.cells), input.value, mem.cells, r.value, n, a)
      ensures input.Some? && ok ==> Copyable(Reg(), Any(), old(mem.cells), input.value, n)
      ensures input.Some? && Copyable(Reg(), Sure(old(mem.cells)), old(mem.cells), input.value, n) ==> ok
      ensures input.Some? && input.value.Ptr? && input.value.t in Reg() ==>
                r.Some? == ok && Filled(old(mem.cells), input.value, mem.cells, r, ok)
    {
      if input.None? {
        return None, true;
      }
      ghost var h := mem.cells;
      var v;
      v, ok := DeepCopyValue(mem, input.value, n);
      r := if ok then Some(v) else None;
      if ok && Closed(h) {
        forall a: Addr | a < |h| ensures KeepsBetween(Reg(), h, input.value, mem.cells, v, n, a) {
          CopyKeeps(Reg(), h, input.value, mem.cells, v, n, a);
        }
      }
    }

    method DeepCopyValue(mem: Memory, src: Value, ghost n: nat) returns (r: Value, ok: bool)
      requires Valid() && Bounded(mem.cells, src, n)
      modifies mem
      ensures Outcome(Reg(), Sure(old(mem.cells)), old(mem.cells), src, mem.cells, Rewrap(src, r), ok, n)
      ensures src.Ptr? && src.t in Reg() ==>
                Filled(old(mem.cells), src, mem.cells, if ok then Some(r) else None, ok)
      decreases n, src, 2
    {
      if src.Nil? {
        ReturnedAsIs(Reg(), mem.cells, src, mem.cells, n);
        return src, true;
      }
      if src.Ptr? && src.t in deepCopyFuncs {
        r, ok := CustomDeepCopy(mem, src, deepCopyFuncs[src.t], n);
        return;
      }
      if src.Ptr? && src.t in generatedDeepCopyFuncs {
        r, ok := CustomDeepCopy(mem, src, generatedDeepCopyFuncs[src.t], n);
        return;
      }
      r, ok := DefaultDeepCopy(mem, src, n);
    }

    method CustomDeepCopy(mem: Memory, src: Value, f: CopyFn, ghost n: nat) returns (r: Value, ok: bool)
      requires Valid() && Honest(f) && src.Ptr? && src.t in Reg() && f == Func(src.t) && Bounded(mem.cells, src, n)
      modifies mem
      ensures Outcome(Reg(), Sure(old(mem.cells)), old(mem.cells), src, mem.cells, r, ok, n)
      ensures var res := f(old(mem.cells) + [PtrCell(zero(src.t))], src, |old(mem.cells)|);
              ok == res.ok && mem.cells == res.heap && r == Ptr(src.t, |old(mem.cells)|)
    {
      ghost var h := mem.cells;
      var out := mem.Alloc(PtrCell(zero(src.t)));
      ghost var h1 := mem.cells;
      Grown(h, h1, src, n);
      if Reaches(h, src, n, out) {
        ReachesInside(h, src, n, out);
      }
      assert HonestOn(f, h1, src, out, n);
      var res := f(mem.cells, src, out);
      mem.cells := res.heap;
      assert forall a :: 0 <= a < |h| ==> mem.cells[a] == h[a];
      r, ok := Ptr(src.t, out), res.ok;
      if ok {
        FilledIsCopied(Reg(), h, h1, src, mem.cells, out, n);
      }
    }

    method DefaultDeepCopy(mem: Memory, src: Value, ghost n: nat) returns (r: Value, ok: bool)
      requires Valid() && Bounded(mem.cells, src, n)
      requires src.Ptr? ==> src.t !in Reg()
      modifies mem
      ensures Outcome(Reg(), Sure(old(mem.cells)), old(mem.cells), src, mem.cells, Rewrap(src, r), ok, n)
      decreases n, src, 1
    {
      match src
      case Handle(_, _) =>
        r, ok := src, false;
      case Array(_, _) =>
        r, ok := CopyArray(mem, src, n);
      case Iface(_, d) =>
        ghost var h := mem.cells;
        r, ok := DeepCopyValue(mem, d, n);
        IfaceOutcome(Reg(), Sure(h), h, src, mem.cells, r, ok, n);
      case Map(_, _) =>
        r, ok := CopyMap(mem, src, n);
      case Ptr(_, _) =>
        r, ok := CopyPtr(mem, src, n);
      case Slice(_, _, _, _) =>
        r, ok := CopySlice(mem, src, n);
      case Struct(_, _) =>
        r, ok := CopyStruct(mem, src, n);
      case Leaf(_, _) =>
        ReturnedAsIs(Reg(), mem.cells, src, mem.cells, n);
        r, ok := src, true;
      case Nil(_) =>
        ReturnedAsIs(Reg(), mem.cells, src, mem.cells, n);
        r, ok := src, true;
    }

    /** One recursive call, with its promise restated against the memory h the whole copy started from. */
    method CopyChild(mem: Memory, v: Value, ghost h: Heap, ghost n: nat) returns (w: Value, ok: bool)
      requires Valid() && h <= mem.cells && Bounded(h, v, n)
      modifies mem
      ensures old(mem.cells) <= mem.cells
      ensures Outcome(Reg(), Sure(h), h, v, mem.cells, w, ok, n)
      ensures ok ==> forall d: Addr :: |h| <= d < |old(mem.cells)| ==> Clear(mem.cells, w, n, d)
      decreases n, v, 3
    {
      ghost var h1 := mem.cells;
      Grown(h, h1, v, n);
      GrownCopyable(Reg(), Any(), h, h1, v, n);
      GrownCopyable(Reg(), Sure(h), h, h1, v, n);
      if Copyable(Reg(), Sure(h), h1, v, n) {
        SurerCopyable(Reg(), Sure(h), Sure(h1), h1, v, n);
      }
      var c;
      c, ok := DeepCopyValue(mem, v, n);
      w := Rewrap(v, c);
      if ok {
        CopiedEarlier(Reg(), h, h1, v, mem.cells, w, n);
      }
    }

    method CopyPtr(mem: Memory, src: Value, ghost n: nat) returns (r: Value, ok: bool)
      requires Valid() && src.Ptr? && src.t !in Reg() && Bounded(mem.cells, src, n)
      modifies mem
      ensures Outcome(Reg(), Sure(old(mem.cells)), old(mem.cells), src, mem.cells, r, ok, n)
      decreases n, src, 0
    {
      ghost var h := mem.cells;
      var v := mem.cells[src.cell].v;
      var dst := mem.Alloc(PtrCell(zero(src.t)));
      var w;
      w, ok := CopyChild(mem, v, h, n - 1);
      if !ok {
        return src, false;
      }
      assert Clear(mem.cells, w, n - 1, dst);
      KeptByWrite(Reg(), h, v, mem.cells, w, n - 1, dst, PtrCell(w));
      mem.Store(dst, PtrCell(w));
      PtrCopied(Reg(), h, src, mem.cells, dst, w, n);
      r := Ptr(src.t, dst);
    }

    /** One round of the loop over a map: the value under k is copied and stored. */
    method CopyEntry(mem: Memory, m: map<Value, Value>, k: Value, out: map<Value, Value>, dst: Addr, ghost h: Heap, ghost n: nat)
      returns (out': map<Value, Value>, ok: bool)
      requires Valid() && k in m && Bounded(h, m[k], n) && MapState(Reg(), h, m, mem.cells, out, n, dst)
      modifies mem
      ensures h <= mem.cells
      ensures ok ==> out'.Keys == out.Keys + {k} && MapState(Reg(), h, m, mem.cells, out', n, dst)
      ensures !ok ==> !Copyable(Reg(), Sure(h), h, m[k], n)
      decreases n, m[k], 4
    {
      ghost var h1 := mem.cells;
      var w;
      w, ok := CopyChild(mem, m[k], h, n);
      if !ok {
        return out, false;
      }
      out' := out[k := w];
      MapStep(Reg(), h, m, h1, out, mem.cells, k, w, n, dst, MapCell(out'));
      mem.Store(dst, MapCell(out'));
    }

    method CopyMap(mem: Memory, src: Value, ghost n: nat) returns (r: Value, ok: bool)
      requires Valid() && src.Map? && Bounded(mem.cells, src, n)
      modifies mem
      ensures Outcome(Reg(), Sure(old(mem.cells)), old(mem.cells), src, mem.cells, r, ok, n)
      decreases n, src, 0
    {
      ghost var h := mem.cells;
      var m := mem.cells[src.cell].m;
      var out: map<Value, Value> := map[];
      var dst := mem.Alloc(MapCell(out));
      var todo := m.Keys;
      while todo != {}
        invariant todo <= m.Keys && out.Keys == m.Keys - todo
        invariant MapState(Reg(), h, m, mem.cells, out, n - 1, dst)
        decreases todo
      {
        var k :| k in todo;
        out, ok := CopyEntry(mem, m, k, out, dst, h, n - 1);
        if !ok {
          MapFailed(Reg(), Sure(h), h, src, mem.cells, k, n);
          return src, false;
        }
        todo := todo - {k};
      }
      MapDone(Reg(), Sure(h), h, src, mem.cells, dst, out, n);
      r, ok := Map(src.t, dst), true;
    }

    /** One round of the loop over a slice: the next element is copied and stored. */
    method CopyElement(mem: Memory, es: seq<Value>, out: seq<Value>, dst: Addr, ghost h: Heap, ghost n: nat)
      returns (out': seq<Value>, ok: bool)
      requires Valid() && |out| < |es| && Bounded(h, es[|out|], n) && SliceState(Reg(), h, es, mem.cells, out, n, dst)
      modifies mem
      ensures h <= mem.cells
      ensures ok ==> |out'| == |out| + 1 && SliceState(Reg(), h, es, mem.cells, out', n, dst)
      ensures !ok ==> !Copyable(Reg(), Sure(h), h, es[|out|], n)
      decreases n, es[|out|], 4
    {
      ghost var h1 := mem.cells;
      var w;
      w, ok := CopyChild(mem, es[|out|], h, n);
      if !ok {
        return out, false;
      }
      out' := out + [w];
      ListStep(Reg(), h, es, h1, out, mem.cells, w, n);
      ListClearStep(h1, out, mem.cells, w, n, dst);
      ListWrite(Reg(), h, es, mem.cells, out', n, dst, ArrayCell(out'));
      mem.Store(dst, ArrayCell(out'));
    }

    /** The loop over a slice; after a failure `out` holds the copies made before it. */
    method CopyElements(mem: Memory, es: seq<Value>, dst: Addr, ghost h: Heap, ghost n: nat)
      returns (out: seq<Value>, ok: bool)
      requires Valid() && (forall j :: 0 <= j < |es| ==> Bounded(h, es[j], n))
      requires SliceState(Reg(), h, es, mem.cells, [], n, dst)
      modifies mem
      ensures h <= mem.cells && |out| <= |es|
      ensures ok ==> |out| == |es| && SliceState(Reg(), h, es, mem.cells, out, n, dst)
      ensures !ok ==> |out| < |es| && !Copyable(Reg(), Sure(h), h, es[|out|], n)
      decreases n
    {
      out := [];
      while |out| < |es|
        invariant |out| <= |es| && SliceState(Reg(), h, es, mem.cells, out, n, dst)
        decreases |es| - |out|
      {
        var next;
        next, ok := CopyElement(mem, es, out, dst, h, n);
        if !ok {
          return;
        }
        out := next;
      }
      ok := true;
    }

    method CopySlice(mem: Memory, src: Value, ghost n: nat) returns (r: Value, ok: bool)
      requires Valid() && src.Slice? && Bounded(mem.cells, src, n)
      modifies mem
      ensures Outcome(Reg(), Sure(old(mem.cells)), old(mem.cells), src, mem.cells, r, ok, n)
      decreases n, src, 0
    {
      ghost var h := mem.cells;
      var es := mem.cells[src.cell].elems[src.off..src.off + src.len];
      ElementsBounded(h, src, es, n);
      var dst := mem.Alloc(ArrayCell([]));
      var out;
      out, ok := CopyElements(mem, es, dst, h, n - 1);
      if !ok {
        SliceFailed(Reg(), Sure(h), h, src, mem.cells, es, |out|, n);
        return src, false;
      }
      SliceDone(Reg(), Sure(h), h, src, mem.cells, dst, es, out, n);
      r, ok := Slice(src.t, dst, 0, src.len), true;
    }

    /** One round of the loops that hold their copies inline: v, the next of the values vs, is copied. */
    method CopyNext(mem: Memory, v: Value, ghost vs: seq<Value>, out: seq<Value>, ghost h: Heap, ghost n: nat)
      returns (out': seq<Value>, ok: bool)
      requires Valid() && h <= mem.cells && |out| < |vs| && v == vs[|out|] && Bounded(h, v, n)
      requires ListCopied(Reg(), h, vs, mem.cells, out, n)
      modifies mem
      ensures h <= mem.cells
      ensures ok ==> |out'| == |out| + 1 && ListCopied(Reg(), h, vs, mem.cells, out', n)
      ensures !ok ==> !Copyable(Reg(), Sure(h), h, v, n)
      decreases n, v, 4
    {
      ghost var h1 := mem.cells;
      var w;
      w, ok := CopyChild(mem, v, h, n);
      if !ok {
        return out, false;
      }
      ListStep(Reg(), h, vs, h1, out, mem.cells, w, n);
      out' := out + [w];
    }

    method CopyArray(mem: Memory, src: Value, ghost n: nat) returns (r: Value, ok: bool)
      requires Valid() && src.Array? && Bounded(mem.cells, src, n)
      modifies mem
      ensures Outcome(Reg(), Sure(old(mem.cells)), old(mem.cells), src, mem.cells, r, ok, n)
      decreases n, src, 0
    {
      ghost var h := mem.cells;
      var out: seq<Value> := [];
      for i := 0 to |src.elems|
        invariant |out| == i && h <= mem.cells
        invariant ListCopied(Reg(), h, src.elems, mem.cells, out, n)
      {
        out, ok := CopyNext(mem, src.elems[i], src.elems, out, h, n);
        if !ok {
          assert !Copyable(Reg(), Sure(h), h, src, n);
          return src, false;
        }
      }
      ArrayCopied(Reg(), h, src, mem.cells, out, n);
      r, ok := Array(src.t, out), true;
    }

    method CopyStruct(mem: Memory, src: Value, ghost n: nat) returns (r: Value, ok: bool)
      requires Valid() && src.Struct? && Bounded(mem.cells, src, n)
      modifies mem
      ensures Outcome(Reg(), Sure(old(mem.cells)), old(mem.cells), src, mem.cells, r, ok, n)
      decreases n, src, 0
    {
      ghost var h := mem.cells;
      var fs := src.fields;
      ghost var vs := FieldValues(fs);
      var out: seq<Value> := [];
      for i := 0 to |fs|
        invariant |out| == i && h <= mem.cells && i <= SettablePrefix(fs)
        invariant ListCopied(Reg(), h, vs, mem.cells, out, n)
      {
        if !fs[i].settable {
          StructKept(Reg(), Sure(h), h, src, mem.cells, i, out, n);
          return src, true;
        }
        out, ok := CopyNext(mem, fs[i].v, vs, out, h, n);
        if !ok {
          StructFailed(Reg(), Sure(h), h, src, mem.cells, i, n);
          return src, false;
        }
      }
      StructDone(Reg(), Sure(h), h, src, mem.cells, out, n);
      r, ok := Struct(src.t, WithValues(fs, out)), true;
    }
  }

  /** The cell that a pointer to a byte slice refers to. */
  ghost predicate HoldsBytes(h: Heap, c: Cell) {
    && c.PtrCell?
    && match c.v
       case Nil(_) => true
       case Slice(_, a, off, len) =>
         && a < |h| && h[a].ArrayCell? && off + len <= |h[a].elems|
         && forall i :: off <= i < off + len ==> h[a].elems[i].Leaf?
       case _ => false
  }

  lemma {:induction false} BytesAreFilled(h: Heap, src: Value, z: Value)
    requires src.Ptr? && src.cell < |h| && HoldsBytes(h, h[src.cell])
    ensures ByteSliceDeepCopy(h + [PtrCell(z)], src, |h|).ok
  {
    var h1 := h + [PtrCell(z)];
    assert h1[src.cell] == h[src.cell];
    var v := h[src.cell].v;
    if v.Slice? {
      assert h1[v.cell] == h[v.cell];
    }
  }

  /** A new cloner copies every pointer to a byte slice. */
  method CopyBytes(zero: TypeId -> Value, mem: Memory, src: Value, ghost n: nat) returns (r: Option<Value>, ok: bool)
    requires src.Ptr? && Bounded(mem.cells, src, n) && HoldsBytes(mem.cells, mem.cells[src.cell])
    modifies mem
    ensures ok && r == Some(Ptr(src.t, |old(mem.cells)|)) && old(mem.cells) <= mem.cells
    ensures CopiedAs({src.t}, old(mem.cells), src, mem.cells, r.value, n)
  {
    BytesAreFilled(mem.cells, src, zero(src.t));
    var cloner := new Cloner(zero, src.t);
    r, ok := cloner.DeepCopy(mem, Some(src), n);
  }
}
