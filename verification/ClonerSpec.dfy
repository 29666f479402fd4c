/**
 What a deep copy is (pkg/conversion/cloner.go): which values can be copied, what the copy looks
 like, and which cells of the original it still shares. `reg` is the set of pointer types that have a
 registered copy function; what such a function shares is left to it, up to what the default copy would share.
 */
module ClonerSpec {
  import opened GoValues
  import opened Reachability

  predicate AllSettable(fs: seq<Field>) {
    forall i :: 0 <= i < |fs| ==> fs[i].settable
  }

  /** The number of leading settable fields. */
  function SettablePrefix(fs: seq<Field>): (k: nat)
    ensures k <= |fs|
    ensures forall i :: 0 <= i < k ==> fs[i].settable
    ensures k < |fs| ==> !fs[k].settable
  {
    if |fs| == 0 || !fs[0].settable then 0 else 1 + SettablePrefix(fs[1..])
  }

  /**
   The traversal meets no chan, func, unsafe pointer or uintptr; it stops at an unsettable field and
   at a pointer of a registered type, which must be one of those in `sure`.
   */
  ghost predicate Copyable(reg: set<TypeId>, sure: iset<Value>, h: Heap, v: Value, n: nat)
    requires Bounded(h, v, n)
    decreases n, v
  {
    match v
    case Leaf(_, _) => true
    case Handle(_, _) => false
    case Nil(_) => true
    case Ptr(t, b) => if t in reg then v in sure else Copyable(reg, sure, h, h[b].v, n - 1)
    case Map(_, b) => forall k :: k in h[b].m ==> Copyable(reg, sure, h, h[b].m[k], n - 1)
    case Slice(_, b, off, len) => forall i :: off <= i < off + len ==> Copyable(reg, sure, h, h[b].elems[i], n - 1)
    case Iface(_, d) => Copyable(reg, sure, h, d, n)
    case Array(_, es) => forall i :: 0 <= i < |es| ==> Copyable(reg, sure, h, es[i], n)
    case Struct(_, fs) => forall i :: 0 <= i < SettablePrefix(fs) ==> Copyable(reg, sure, h, fs[i].v, n)
  }

  /** Every pointer, as if registered functions always succeeded. */
  ghost function Any(): iset<Value> {
    iset v: Value | v.Ptr?
  }

  /**
   Cell `a` of the original stays reachable from the copy: it hangs below a struct copied as is, not counting
   what lies behind registered types. With no type registered this is all that may be shared.
   */
  ghost predicate Shares(reg: set<TypeId>, h: Heap, v: Value, n: nat, a: Addr)
    requires Bounded(h, v, n)
    decreases n, v
  {
    match v
    case Leaf(_, _) => false
    case Handle(_, _) => false
    case Nil(_) => false
    case Ptr(t, b) => t !in reg && Shares(reg, h, h[b].v, n - 1, a)
    case Map(_, b) => exists k :: k in h[b].m && Shares(reg, h, h[b].m[k], n - 1, a)
    case Slice(_, b, off, len) => exists i :: off <= i < off + len && Shares(reg, h, h[b].elems[i], n - 1, a)
    case Iface(_, d) => Shares(reg, h, d, n, a)
    case Array(_, es) => exists i :: 0 <= i < |es| && Shares(reg, h, es[i], n, a)
    case Struct(_, fs) =>
      if AllSettable(fs) then exists i :: 0 <= i < |fs| && Shares(reg, h, fs[i].v, n, a)
      else Reaches(h, v, n, a)
  }

  /** The copy keeps what must be shared and nothing beyond what may be. */
  ghost predicate SharesBetween(reg: set<TypeId>, h: Heap, v: Value, h': Heap, w: Value, n: nat, a: Addr)
    requires Bounded(h, v, n) && Bounded(h', w, n)
  {
    && (Shares(reg, h, v, n, a) ==> Reaches(h', w, n, a))
    && (Reaches(h', w, n, a) ==> Shares({}, h, v, n, a))
  }

  /** `w` in memory h' is a copy of `v` in memory h: the same tree, sharing just what it must and may. */
  ghost predicate CopiedAs(reg: set<TypeId>, h: Heap, v: Value, h': Heap, w: Value, n: nat) {
    && Bounded(h, v, n) && Bounded(h', w, n)
    && Unfold(h', w, n) == Unfold(h, v, n)
    && forall a: Addr :: a < |h| ==> SharesBetween(reg, h, v, h', w, n, a)
  }

  /** Storing a copy in a slot of interface type wraps it again. */
  function Rewrap(slot: Value, v: Value): Value {
    if slot.Iface? then Iface(slot.t, v) else v
  }

  // ----- growing the memory -----

  lemma {:induction false} ReachesInside(h: Heap, v: Value, n: nat, a: Addr)
    requires Bounded(h, v, n) && Reaches(h, v, n, a)
    ensures a < |h|
    decreases n, v
  {
    match v
    case Ptr(_, b) =>
      if a != b { ReachesInside(h, h[b].v, n - 1, a); }
    case Map(_, b) =>
      if a != b {
        var k :| k in h[b].m && Reaches(h, h[b].m[k], n - 1, a);
        ReachesInside(h, h[b].m[k], n - 1, a);
      }
    case Slice(_, b, off, len) =>
      if a != b {
        var i :| off <= i < off + len && Reaches(h, h[b].elems[i], n - 1, a);
        ReachesInside(h, h[b].elems[i], n - 1, a);
      }
    case Iface(_, d) => ReachesInside(h, d, n, a);
    case Array(_, es) =>
      var i :| 0 <= i < |es| && Reaches(h, es[i], n, a);
      ReachesInside(h, es[i], n, a);
    case Struct(_, fs) =>
      var i :| 0 <= i < |fs| && Reaches(h, fs[i].v, n, a);
      ReachesInside(h, fs[i].v, n, a);
  }

  lemma {:induction false} Grown(h: Heap, h': Heap, v: Value, n: nat)
    requires Bounded(h, v, n) && h <= h'
    ensures SameView(h, n, h', n, v)
  {
    forall a: Addr | Reaches(h, v, n, a) ensures a < |h| {
      ReachesInside(h, v, n, a);
    }
    Frame(h, h', v, n);
  }

  lemma {:induction false} SharesIsReached(reg: set<TypeId>, h: Heap, v: Value, n: nat, a: Addr)
    requires Bounded(h, v, n) && Shares(reg, h, v, n, a)
    ensures Reaches(h, v, n, a)
    decreases n, v
  {
    match v
    case Ptr(_, b) => SharesIsReached(reg, h, h[b].v, n - 1, a);
    case Map(_, b) =>
      var k :| k in h[b].m && Shares(reg, h, h[b].m[k], n - 1, a);
      SharesIsReached(reg, h, h[b].m[k], n - 1, a);
    case Slice(_, b, off, len) =>
      var i :| off <= i < off + len && Shares(reg, h, h[b].elems[i], n - 1, a);
      SharesIsReached(reg, h, h[b].elems[i], n - 1, a);
    case Iface(_, d) => SharesIsReached(reg, h, d, n, a);
    case Array(_, es) =>
      var i :| 0 <= i < |es| && Shares(reg, h, es[i], n, a);
      SharesIsReached(reg, h, es[i], n, a);
    case Struct(_, fs) =>
      if AllSettable(fs) {
        var i :| 0 <= i < |fs| && Shares(reg, h, fs[i].v, n, a);
        SharesIsReached(reg, h, fs[i].v, n, a);
      }
  }

  /** What is shared does not depend on cells allocated later. */
  lemma {:induction false} GrownShares(reg: set<TypeId>, h: Heap, h': Heap, v: Value, n: nat, a: Addr)
    requires Bounded(h, v, n) && h <= h'
    ensures Bounded(h', v, n)
    ensures Shares(reg, h', v, n, a) <==> Shares(reg, h, v, n, a)
    decreases n, v
  {
    Grown(h, h', v, n);
    match v
    case Leaf(_, _) =>
    case Handle(_, _) =>
    case Nil(_) =>
    case Ptr(_, b) => GrownShares(reg, h, h', h[b].v, n - 1, a);
    case Map(_, b) =>
      var m := h[b].m;
      forall k | k in m
        ensures Shares(reg, h', m[k], n - 1, a) <==> Shares(reg, h, m[k], n - 1, a)
      {
        GrownShares(reg, h, h', m[k], n - 1, a);
      }
    case Slice(_, b, off, len) =>
      var es := h[b].elems;
      forall i | off <= i < off + len
        ensures Shares(reg, h', es[i], n - 1, a) <==> Shares(reg, h, es[i], n - 1, a)
      {
        GrownShares(reg, h, h', es[i], n - 1, a);
      }
    case Iface(_, d) => GrownShares(reg, h, h', d, n, a);
    case Array(_, es) =>
      forall i | 0 <= i < |es|
        ensures Shares(reg, h', es[i], n, a) <==> Shares(reg, h, es[i], n, a)
      {
        GrownShares(reg, h, h', es[i], n, a);
      }
    case Struct(_, fs) =>
      forall i | 0 <= i < |fs|
        ensures Shares(reg, h', fs[i].v, n, a) <==> Shares(reg, h, fs[i].v, n, a)
      {
        GrownShares(reg, h, h', fs[i].v, n, a);
      }
  }

  /** Nor does what can be copied. */
  lemma {:induction false} GrownCopyable(reg: set<TypeId>, sure: iset<Value>, h: Heap, h': Heap, v: Value, n: nat)
    requires Bounded(h, v, n) && h <= h'
    ensures Bounded(h', v, n)
    ensures Copyable(reg, sure, h', v, n) <==> Copyable(reg, sure, h, v, n)
    decreases n, v
  {
    Grown(h, h', v, n);
    match v
    case Leaf(_, _) =>
    case Handle(_, _) =>
    case Nil(_) =>
    case Ptr(_, b) => GrownCopyable(reg, sure, h, h', h[b].v, n - 1);
    case Map(_, b) =>
      var m := h[b].m;
      forall k | k in m
        ensures Copyable(reg, sure, h', m[k], n - 1) <==> Copyable(reg, sure, h, m[k], n - 1)
      {
        GrownCopyable(reg, sure, h, h', m[k], n - 1);
      }
    case Slice(_, b, off, len) =>
      var es := h[b].elems;
      forall i | off <= i < off + len
        ensures Copyable(reg, sure, h', es[i], n - 1) <==> Copyable(reg, sure, h, es[i], n - 1)
      {
        GrownCopyable(reg, sure, h, h', es[i], n - 1);
      }
    case Iface(_, d) => GrownCopyable(reg, sure, h, h', d, n);
    case Array(_, es) =>
      forall i | 0 <= i < |es|
        ensures Copyable(reg, sure, h', es[i], n) <==> Copyable(reg, sure, h, es[i], n)
      {
        GrownCopyable(reg, sure, h, h', es[i], n);
      }
    case Struct(_, fs) =>
      forall i | 0 <= i < |fs|
        ensures Copyable(reg, sure, h', fs[i].v, n) <==> Copyable(reg, sure, h, fs[i].v, n)
      {
        GrownCopyable(reg, sure, h, h', fs[i].v, n);
      }
  }

  /** The more pointers are sure, the more can be copied. */
  lemma {:induction false} SurerCopyable(reg: set<TypeId>, sure: iset<Value>, surer: iset<Value>, h: Heap, v: Value, n: nat)
    requires Bounded(h, v, n) && Copyable(reg, sure, h, v, n) && sure <= surer
    ensures Copyable(reg, surer, h, v, n)
    decreases n, v
  {
    match v
    case Leaf(_, _) =>
    case Nil(_) =>
    case Ptr(t, b) =>
      if t !in reg { SurerCopyable(reg, sure, surer, h, h[b].v, n - 1); }
    case Map(_, b) =>
      forall k | k in h[b].m ensures Copyable(reg, surer, h, h[b].m[k], n - 1) {
        SurerCopyable(reg, sure, surer, h, h[b].m[k], n - 1);
      }
    case Slice(_, b, off, len) =>
      forall i | off <= i < off + len ensures Copyable(reg, surer, h, h[b].elems[i], n - 1) {
        SurerCopyable(reg, sure, surer, h, h[b].elems[i], n - 1);
      }
    case Iface(_, d) => SurerCopyable(reg, sure, surer, h, d, n);
    case Array(_, es) =>
      forall i | 0 <= i < |es| ensures Copyable(reg, surer, h, es[i], n) {
        SurerCopyable(reg, sure, surer, h, es[i], n);
      }
    case Struct(_, fs) =>
      forall i | 0 <= i < SettablePrefix(fs) ensures Copyable(reg, surer, h, fs[i].v, n) {
        SurerCopyable(reg, sure, surer, h, fs[i].v, n);
      }
  }

  /** A copy made in a grown memory is a copy of the original. */
  lemma {:induction false} CopiedEarlier(reg: set<TypeId>, h: Heap, h1: Heap, v: Value, h2: Heap, w: Value, n: nat)
    requires Bounded(h, v, n) && h <= h1 && CopiedAs(reg, h1, v, h2, w, n)
    ensures CopiedAs(reg, h, v, h2, w, n)
    ensures forall d: Addr :: |h| <= d < |h1| ==> !Reaches(h2, w, n, d)
  {
    Grown(h, h1, v, n);
    forall a: Addr | a < |h1|
      ensures SharesBetween(reg, h, v, h2, w, n, a)
      ensures |h| <= a ==> !Reaches(h2, w, n, a)
    {
      assert SharesBetween(reg, h1, v, h2, w, n, a);
      GrownShares(reg, h, h1, v, n, a);
      GrownShares({}, h, h1, v, n, a);
      if Shares({}, h, v, n, a) {
        SharesIsReached({}, h, v, n, a);
        ReachesInside(h, v, n, a);
      }
    }
  }

  lemma {:induction false} ViewKept(reg: set<TypeId>, h: Heap, v: Value, h1: Heap, w: Value, h2: Heap, n: nat)
    requires CopiedAs(reg, h, v, h1, w, n) && SameView(h1, n, h2, n, w)
    ensures CopiedAs(reg, h, v, h2, w, n)
  {
    forall a: Addr | a < |h| ensures SharesBetween(reg, h, v, h2, w, n, a) {
      assert SharesBetween(reg, h, v, h1, w, n, a);
    }
  }

  /** A copy survives further allocation and writes to cells it does not reach. */
  lemma {:induction false} CopyKept(reg: set<TypeId>, h: Heap, v: Value, h1: Heap, w: Value, h2: Heap, n: nat)
    requires CopiedAs(reg, h, v, h1, w, n)
    requires AgreeOn(h1, h2, w, n)
    ensures CopiedAs(reg, h, v, h2, w, n)
    ensures SameView(h1, n, h2, n, w)
  {
    Frame(h1, h2, w, n);
    ViewKept(reg, h, v, h1, w, h2, n);
  }

  // ----- what the copy is good for -----

  /** Every struct the traversal opens has only settable fields. */
  ghost predicate NoPrivateFields(h: Heap, v: Value, n: nat)
    requires Bounded(h, v, n)
    decreases n, v
  {
    match v
    case Leaf(_, _) => true
    case Handle(_, _) => true
    case Nil(_) => true
    case Ptr(_, b) => NoPrivateFields(h, h[b].v, n - 1)
    case Map(_, b) => forall k :: k in h[b].m ==> NoPrivateFields(h, h[b].m[k], n - 1)
    case Slice(_, b, off, len) => forall i :: off <= i < off + len ==> NoPrivateFields(h, h[b].elems[i], n - 1)
    case Iface(_, d) => NoPrivateFields(h, d, n)
    case Array(_, es) => forall i :: 0 <= i < |es| ==> NoPrivateFields(h, es[i], n)
    case Struct(_, fs) => AllSettable(fs) && forall i :: 0 <= i < |fs| ==> NoPrivateFields(h, fs[i].v, n)
  }

  lemma {:induction false} SettableSharesNothing(reg: set<TypeId>, h: Heap, v: Value, n: nat, a: Addr)
    requires Bounded(h, v, n) && NoPrivateFields(h, v, n)
    ensures !Shares(reg, h, v, n, a)
    decreases n, v
  {
    match v
    case Leaf(_, _) =>
    case Handle(_, _) =>
    case Nil(_) =>
    case Ptr(_, b) => SettableSharesNothing(reg, h, h[b].v, n - 1, a);
    case Map(_, b) =>
      forall k | k in h[b].m ensures !Shares(reg, h, h[b].m[k], n - 1, a) {
        SettableSharesNothing(reg, h, h[b].m[k], n - 1, a);
      }
    case Slice(_, b, off, len) =>
      forall i | off <= i < off + len ensures !Shares(reg, h, h[b].elems[i], n - 1, a) {
        SettableSharesNothing(reg, h, h[b].elems[i], n - 1, a);
      }
    case Iface(_, d) => SettableSharesNothing(reg, h, d, n, a);
    case Array(_, es) =>
      forall i | 0 <= i < |es| ensures !Shares(reg, h, es[i], n, a) {
        SettableSharesNothing(reg, h, es[i], n, a);
      }
    case Struct(_, fs) =>
      forall i | 0 <= i < |fs| ensures !Shares(reg, h, fs[i].v, n, a) {
        SettableSharesNothing(reg, h, fs[i].v, n, a);
      }
  }

  /** No registered type stands above anything that might be shared. */
  ghost predicate Unregistered(reg: set<TypeId>, h: Heap, v: Value, n: nat)
    requires Bounded(h, v, n)
    decreases n, v
  {
    match v
    case Leaf(_, _) => true
    case Handle(_, _) => true
    case Nil(_) => true
    case Ptr(t, b) => t !in reg && Unregistered(reg, h, h[b].v, n - 1)
    case Map(_, b) => forall k :: k in h[b].m ==> Unregistered(reg, h, h[b].m[k], n - 1)
    case Slice(_, b, off, len) => forall i :: off <= i < off + len ==> Unregistered(reg, h, h[b].elems[i], n - 1)
    case Iface(_, d) => Unregistered(reg, h, d, n)
    case Array(_, es) => forall i :: 0 <= i < |es| ==> Unregistered(reg, h, es[i], n)
    case Struct(_, fs) => AllSettable(fs) ==> forall i :: 0 <= i < |fs| ==> Unregistered(reg, h, fs[i].v, n)
  }

  /** Of registered types the traversal meets only pointers in `sure`, even before it gives up on a struct. */
  ghost predicate OnlySureMet(reg: set<TypeId>, sure: iset<Value>, h: Heap, v: Value, n: nat)
    requires Bounded(h, v, n)
    decreases n, v
  {
    match v
    case Leaf(_, _) => true
    case Handle(_, _) => true
    case Nil(_) => true
    case Ptr(t, b) => if t in reg then v in sure else OnlySureMet(reg, sure, h, h[b].v, n - 1)
    case Map(_, b) => forall k :: k in h[b].m ==> OnlySureMet(reg, sure, h, h[b].m[k], n - 1)
    case Slice(_, b, off, len) => forall i :: off <= i < off + len ==> OnlySureMet(reg, sure, h, h[b].elems[i], n - 1)
    case Iface(_, d) => OnlySureMet(reg, sure, h, d, n)
    case Array(_, es) => forall i :: 0 <= i < |es| ==> OnlySureMet(reg, sure, h, es[i], n)
    case Struct(_, fs) => forall i :: 0 <= i < SettablePrefix(fs) ==> OnlySureMet(reg, sure, h, fs[i].v, n)
  }

  /** Then what may fail is what must fail. */
  lemma {:induction false} SureIsEnough(reg: set<TypeId>, sure: iset<Value>, h: Heap, v: Value, n: nat)
    requires Bounded(h, v, n) && OnlySureMet(reg, sure, h, v, n)
    ensures Copyable(reg, Any(), h, v, n) <==> Copyable(reg, sure, h, v, n)
    decreases n, v
  {
    match v
    case Leaf(_, _) =>
    case Handle(_, _) =>
    case Nil(_) =>
    case Ptr(t, b) => if t !in reg { SureIsEnough(reg, sure, h, h[b].v, n - 1); }
    case Map(_, b) =>
      var m := h[b].m;
      forall k | k in m ensures Copyable(reg, Any(), h, m[k], n - 1) <==> Copyable(reg, sure, h, m[k], n - 1) {
        SureIsEnough(reg, sure, h, m[k], n - 1);
      }
    case Slice(_, b, off, len) =>
      var es := h[b].elems;
      forall i | off <= i < off + len
        ensures Copyable(reg, Any(), h, es[i], n - 1) <==> Copyable(reg, sure, h, es[i], n - 1)
      {
        SureIsEnough(reg, sure, h, es[i], n - 1);
      }
    case Iface(_, d) => SureIsEnough(reg, sure, h, d, n);
    case Array(_, es) =>
      forall i | 0 <= i < |es| ensures Copyable(reg, Any(), h, es[i], n) <==> Copyable(reg, sure, h, es[i], n) {
        SureIsEnough(reg, sure, h, es[i], n);
      }
    case Struct(_, fs) =>
      forall i | 0 <= i < SettablePrefix(fs)
        ensures Copyable(reg, Any(), h, fs[i].v, n) <==> Copyable(reg, sure, h, fs[i].v, n)
      {
        SureIsEnough(reg, sure, h, fs[i].v, n);
      }
  }

  /** Where no registered type intervenes, what may be shared is what must be. */
  lemma {:induction false} MayIsMust(reg: set<TypeId>, h: Heap, v: Value, n: nat, a: Addr)
    requires Bounded(h, v, n) && Unregistered(reg, h, v, n)
    ensures Shares(reg, h, v, n, a) <==> Shares({}, h, v, n, a)
    decreases n, v
  {
    match v
    case Leaf(_, _) =>
    case Handle(_, _) =>
    case Nil(_) =>
    case Ptr(_, b) => MayIsMust(reg, h, h[b].v, n - 1, a);
    case Map(_, b) =>
      var m := h[b].m;
      forall k | k in m ensures Shares(reg, h, m[k], n - 1, a) <==> Shares({}, h, m[k], n - 1, a) {
        MayIsMust(reg, h, m[k], n - 1, a);
      }
    case Slice(_, b, off, len) =>
      var es := h[b].elems;
      forall i | off <= i < off + len ensures Shares(reg, h, es[i], n - 1, a) <==> Shares({}, h, es[i], n - 1, a) {
        MayIsMust(reg, h, es[i], n - 1, a);
      }
    case Iface(_, d) => MayIsMust(reg, h, d, n, a);
    case Array(_, es) =>
      forall i | 0 <= i < |es| ensures Shares(reg, h, es[i], n, a) <==> Shares({}, h, es[i], n, a) {
        MayIsMust(reg, h, es[i], n, a);
      }
    case Struct(_, fs) =>
      if AllSettable(fs) {
        forall i | 0 <= i < |fs| ensures Shares(reg, h, fs[i].v, n, a) <==> Shares({}, h, fs[i].v, n, a) {
          MayIsMust(reg, h, fs[i].v, n, a);
        }
      }
  }

  /** The cells of the original that a copy can still get at: below an opaque struct, or through a map key. */
  ghost predicate Kept(reg: set<TypeId>, h: Heap, v: Value, n: nat, a: Addr)
    requires Bounded(h, v, n)
  {
    Shares(reg, h, v, n, a) || HangsFromKey(h, v, n, a)
  }

  /** From the copy one gets at what must be kept, and of the original at nothing beyond what may be. */
  ghost predicate KeepsBetween(reg: set<TypeId>, h: Heap, v: Value, h': Heap, w: Value, n: nat, a: Addr)
    requires Bounded(h, v, n)
  {
    (Kept(reg, h, v, n, a) ==> Held(h', w, a)) && (Held(h', w, a) ==> Kept({}, h, v, n, a))
  }

  /** Keys are not copied, so original and copy hold the same cells through them. */
  lemma {:induction false} KeysAreShared(reg: set<TypeId>, h: Heap, v: Value, h': Heap, w: Value, n: nat, a: Addr)
    requires CopiedAs(reg, h, v, h', w, n) && h <= h' && Closed(h)
    ensures HangsFromKey(h', w, n, a) <==> HangsFromKey(h, v, n, a)
    ensures HangsFromKey(h, v, n, a) ==> Held(h, v, a) && Held(h', w, a)
  {
    SameTreeSameKeys(h, v, h', w, n, a);
    HeldSplits(h, v, n, a);
    HeldSplits(h', w, n, a);
  }

  lemma {:induction false} CopyKeeps(reg: set<TypeId>, h: Heap, v: Value, h': Heap, w: Value, n: nat, a: Addr)
    requires CopiedAs(reg, h, v, h', w, n) && h <= h' && Closed(h) && a < |h|
    ensures KeepsBetween(reg, h, v, h', w, n, a)
  {
    assert SharesBetween(reg, h, v, h', w, n, a);
    KeysAreShared(reg, h, v, h', w, n, a);
    HeldSplits(h', w, n, a);
  }

  /** Where no registered type intervenes, the copy shares exactly the cells below opaque structs and behind map keys. */
  lemma {:induction false} SharingIsExact(reg: set<TypeId>, h: Heap, v: Value, h': Heap, w: Value, n: nat, a: Addr)
    requires CopiedAs(reg, h, v, h', w, n) && h <= h' && Closed(h) && Unregistered(reg, h, v, n) && a < |h|
    ensures Held(h', w, a) <==> Kept({}, h, v, n, a)
  {
    CopyKeeps(reg, h, v, h', w, n, a);
    MayIsMust(reg, h, v, n, a);
  }

  /** With only settable fields just the cells behind map keys are shared, whatever is registered. */
  lemma {:induction false} SettableSharesKeysOnly(reg: set<TypeId>, h: Heap, v: Value, h': Heap, w: Value, n: nat, a: Addr)
    requires CopiedAs(reg, h, v, h', w, n) && h <= h' && Closed(h) && NoPrivateFields(h, v, n) && a < |h|
    ensures Held(h', w, a) <==> HangsFromKey(h, v, n, a)
  {
    CopyKeeps(reg, h, v, h', w, n, a);
    SettableSharesNothing(reg, h, v, n, a);
    SettableSharesNothing({}, h, v, n, a);
  }

  /** No cell can be got at from both. */
  ghost predicate Disjoint(h: Heap, v: Value, h': Heap, w: Value) {
    forall a: Addr :: Held(h', w, a) ==> !Held(h, v, a)
  }

  /** Nothing hangs below a struct with an unexported field or from a map key. */
  ghost predicate NothingKept(h: Heap, v: Value, n: nat)
    requires Bounded(h, v, n)
  {
    forall a: Addr :: !Kept({}, h, v, n, a)
  }

  lemma {:induction false} KeptIsHeld(reg: set<TypeId>, h: Heap, v: Value, n: nat, a: Addr)
    requires Bounded(h, v, n) && Kept(reg, h, v, n, a)
    ensures Held(h, v, a) && a < |h|
  {
    HeldSplits(h, v, n, a);
    if Shares(reg, h, v, n, a) {
      SharesIsReached(reg, h, v, n, a);
    }
    HeldInside(h, v, a);
  }

  lemma {:induction false} DisjointIfNothingMay(reg: set<TypeId>, h: Heap, v: Value, h': Heap, w: Value, n: nat)
    requires CopiedAs(reg, h, v, h', w, n) && h <= h' && Closed(h) && NothingKept(h, v, n)
    ensures Disjoint(h, v, h', w)
  {
    forall a: Addr | Held(h', w, a) ensures !Held(h, v, a) {
      if Held(h, v, a) {
        HeldInside(h, v, a);
        CopyKeeps(reg, h, v, h', w, n, a);
      }
    }
  }

  /** Where no registered type intervenes, original and copy are disjoint exactly when nothing has to be kept. */
  lemma {:induction false} DisjointIffNothingKept(reg: set<TypeId>, h: Heap, v: Value, h': Heap, w: Value, n: nat)
    requires CopiedAs(reg, h, v, h', w, n) && h <= h' && Closed(h) && Unregistered(reg, h, v, n)
    ensures Disjoint(h, v, h', w) <==> NothingKept(h, v, n)
  {
    if Disjoint(h, v, h', w) {
      forall a: Addr ensures !Kept({}, h, v, n, a) {
        if Kept({}, h, v, n, a) {
          KeptIsHeld({}, h, v, n, a);
          SharingIsExact(reg, h, v, h', w, n, a);
        }
      }
    }
    if NothingKept(h, v, n) {
      DisjointIfNothingMay(reg, h, v, h', w, n);
    }
  }

  /** Nothing done to any cell the copy can get at is seen through the original, if that reaches no kept cell. */
  lemma {:induction false} OriginalIsIsolated(
    reg: set<TypeId>, h: Heap, v: Value, h': Heap, w: Value, n: nat, h'': Heap)
    requires CopiedAs(reg, h, v, h', w, n) && h <= h' && Closed(h)
    requires forall a: Addr :: Kept({}, h, v, n, a) ==> !Reaches(h, v, n, a)
    requires |h'| <= |h''|
    requires forall a: Addr :: a < |h'| && !Held(h', w, a) ==> h''[a] == h'[a]
    ensures Bounded(h'', v, n) && Unfold(h'', v, n) == Unfold(h, v, n)
  {
    forall a: Addr | Reaches(h, v, n, a) ensures a < |h| && h''[a] == h[a] {
      ReachesInside(h, v, n, a);
      CopyKeeps(reg, h, v, h', w, n, a);
    }
    Frame(h, h'', v, n);
  }

  /** A private pointer field defeats the copy: whatever is returned still points into the original. */
  lemma {:induction false} PrivatePointerStaysShared(reg: set<TypeId>, t: TypeId, x: int, h': Heap, w: Value)
    requires CopiedAs(reg, [PtrCell(Leaf(t, x))], Struct(t, [Field(false, Ptr(t, 0))]), h', w, 1)
    ensures Reaches(h', w, 1, 0)
  {
    var h, v := [PtrCell(Leaf(t, x))], Struct(t, [Field(false, Ptr(t, 0))]);
    assert Reaches(h, v.fields[0].v, 1, 0);
    assert !v.fields[0].settable;
    assert Reaches(h, v, 1, 0) && Shares(reg, h, v, 1, 0);
    assert SharesBetween(reg, h, v, h', w, 1, 0);
  }
}
