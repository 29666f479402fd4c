/**
 Default conversion between matching types (pkg/conversion/converter.go): it succeeds exactly when the value
 holds no unexported field, and then carries the tree across unchanged; it ignores what the destination held,
 and converting back restores the original.
 */
module ConverterRoundTrip {
  import opened Wrappers
  import opened ConverterSpec

  ghost predicate Named(fs: seq<FieldDesc>, n: string) {
    exists i :: 0 <= i < |fs| && fs[i].name == n
  }

  /** v is a well-formed value of type t. */
  ghost predicate HasType(u: Universe, v: Value, t: TypeId)
    decreases v
  {
    && v.t == t
    && match u.desc(t)
       case BasicT => v.VBasic?
       case PtrT(e) => v.VNil? || (v.VPtr? && HasType(u, v.target, e))
       case SliceT(e) => v.VNil? || (v.VSlice? && forall i :: 0 <= i < |v.elems| ==> HasType(u, v.elems[i], e))
       case MapT(k, e) =>
         v.VNil? || (v.VMap? && forall x :: x in v.m ==> HasType(u, x, k) && HasType(u, v.m[x], e))
       case IfaceT =>
         v.VNil? ||
         (v.VIface? && u.implements(v.dyn.t, t) && !u.desc(v.dyn.t).IfaceT? && HasType(u, v.dyn, v.dyn.t))
       case StructT(fs) =>
         && v.VStruct?
         && (forall n :: n in v.fields <==> Named(fs, n))
         && forall i :: 0 <= i < |fs| ==> fs[i].name in v.fields && HasType(u, v.fields[fs[i].name], fs[i].t)
  }

  ghost predicate IsKey(v: Value, k: Value) {
    v.VMap? && k in v.m
  }

  /** The same tree, whatever the types are called; the contents of interfaces keep their types. */
  ghost predicate Like(v: Value, w: Value)
    decreases v, 1
  {
    match v
    case VBasic(_, b) => w.VBasic? && w.bits == b
    case VNil(_) => w.VNil?
    case VPtr(_, a) => w.VPtr? && Like(a, w.target)
    case VSlice(_, a) => w.VSlice? && |w.elems| == |a| && forall i :: 0 <= i < |a| ==> Like(a[i], w.elems[i])
    case VMap(_, a) =>
      && w.VMap?
      && (forall k :: IsKey(v, k) ==> exists k' :: Paired(v, k, w, k'))
      && (forall k' :: IsKey(w, k') ==> exists k :: Paired(v, k, w, k'))
    case VIface(_, a) => w.VIface? && w.dyn.t == a.t && Like(a, w.dyn)
    case VStruct(_, a) => w.VStruct? && w.fields.Keys == a.Keys && forall n :: n in a ==> Like(a[n], w.fields[n])
  }

  ghost predicate Paired(v: Value, k: Value, w: Value, k': Value)
    requires v.VMap? && w.VMap?
    decreases v, 0
  {
    k in v.m && k' in w.m && Like(k, k') && Like(v.m[k], w.m[k'])
  }

  lemma {:induction false} LikeSymmetric(v: Value, w: Value)
    requires Like(v, w)
    ensures Like(w, v)
    decreases v, 1
  {
    match v
    case VBasic(_, _) =>
    case VNil(_) =>
    case VPtr(_, a) => LikeSymmetric(a, w.target);
    case VSlice(_, a) =>
      forall i | 0 <= i < |a| ensures Like(w.elems[i], a[i]) {
        LikeSymmetric(a[i], w.elems[i]);
      }
    case VMap(_, a) => MapSymmetric(v, w);
    case VIface(_, a) => LikeSymmetric(a, w.dyn);
    case VStruct(_, a) =>
      forall n | n in a ensures Like(w.fields[n], a[n]) {
        LikeSymmetric(a[n], w.fields[n]);
      }
  }

  lemma {:induction false} PairedSymmetric(v: Value, k: Value, w: Value, k': Value)
    requires v.VMap? && w.VMap? && Paired(v, k, w, k')
    ensures Paired(w, k', v, k)
    decreases v, 0, 0
  {
    LikeSymmetric(k, k');
    LikeSymmetric(v.m[k], w.m[k']);
  }

  lemma {:induction false} MapSymmetric(v: Value, w: Value)
    requires v.VMap? && Like(v, w)
    ensures Like(w, v)
    decreases v, 0, 1
  {
    forall k' | IsKey(w, k') ensures exists k :: Paired(w, k', v, k) {
      var k :| Paired(v, k, w, k');
      PairedSymmetric(v, k, w, k');
    }
    forall k | IsKey(v, k) ensures exists k' :: Paired(w, k', v, k) {
      var k' :| Paired(v, k, w, k');
      PairedSymmetric(v, k, w, k');
    }
  }

  /** Within one type, the tree determines the value. */
  lemma {:induction false} LikeUnique(u: Universe, v: Value, w1: Value, w2: Value, t: TypeId)
    requires Like(v, w1) && Like(v, w2) && HasType(u, w1, t) && HasType(u, w2, t)
    ensures w1 == w2
    decreases v, 2
  {
    match v
    case VBasic(_, _) =>
    case VNil(_) =>
    case VPtr(_, a) => LikeUnique(u, a, w1.target, w2.target, u.desc(t).elem);
    case VSlice(_, a) =>
      forall i | 0 <= i < |a| ensures w1.elems[i] == w2.elems[i] {
        LikeUnique(u, a[i], w1.elems[i], w2.elems[i], u.desc(t).elem);
      }
      assert w1.elems == w2.elems;
    case VMap(_, a) =>
      MapUnique(u, v, w1, w2, t);
    case VIface(_, a) => LikeUnique(u, a, w1.dyn, w2.dyn, a.t);
    case VStruct(_, a) =>
      StructUnique(u, v, w1, w2, t);
  }

  lemma {:induction false} StructUnique(u: Universe, v: Value, w1: Value, w2: Value, t: TypeId)
    requires v.VStruct? && Like(v, w1) && Like(v, w2) && HasType(u, w1, t) && HasType(u, w2, t)
    ensures w1 == w2
    decreases v, 1
  {
    forall n | n in v.fields ensures w1.fields[n] == w2.fields[n] {
      assert Named(u.desc(t).fields, n);
      var i :| 0 <= i < |u.desc(t).fields| && u.desc(t).fields[i].name == n;
      LikeUnique(u, v.fields[n], w1.fields[n], w2.fields[n], u.desc(t).fields[i].t);
    }
    assert w1.fields == w2.fields;
  }

  lemma {:induction false} MapUnique(u: Universe, v: Value, w1: Value, w2: Value, t: TypeId)
    requires v.VMap? && Like(v, w1) && Like(v, w2) && HasType(u, w1, t) && HasType(u, w2, t)
    ensures w1 == w2
    decreases v, 1
  {
    forall k1 | k1 in w1.m ensures k1 in w2.m && w2.m[k1] == w1.m[k1] {
      MapEntryUnique(u, v, w1, w2, t, k1);
    }
    forall k2 | k2 in w2.m ensures k2 in w1.m && w1.m[k2] == w2.m[k2] {
      MapEntryUnique(u, v, w2, w1, t, k2);
    }
    assert w1.m == w2.m;
  }

  lemma {:induction false} MapEntryUnique(u: Universe, v: Value, w1: Value, w2: Value, t: TypeId, k1: Value)
    requires v.VMap? && Like(v, w1) && Like(v, w2) && HasType(u, w1, t) && HasType(u, w2, t) && k1 in w1.m
    ensures k1 in w2.m && w2.m[k1] == w1.m[k1]
    decreases v, 0
  {
    assert IsKey(w1, k1);
    var k :| Paired(v, k, w1, k1);
    assert IsKey(v, k);
    var k2 :| Paired(v, k, w2, k2);
    LikeUnique(u, k, k1, k2, u.desc(t).key);
    LikeUnique(u, v.m[k], w1.m[k1], w2.m[k2], u.desc(t).elem);
  }

  // ----- matching types -----

  type Rel = (TypeId, TypeId) -> bool

  ghost predicate LeafOk(u: Universe, st: TypeId, dt: TypeId, bits: int) {
    if u.assignable(st, dt) then u.assign(VBasic(st, bits), dt) == VBasic(dt, bits)
    else u.convertible(st, dt) && u.convert(VBasic(st, bits), dt) == VBasic(dt, bits)
  }

  /** Of the types related to themselves, those that go into the one interface go into the other. */
  ghost predicate IfaceOk(u: Universe, r: Rel, st: TypeId, dt: TypeId, d: TypeId) {
    r(d, d) && u.implements(d, st) && !u.desc(d).IfaceT? ==> u.implements(d, dt)
  }

  /** Every interface inside v holds a value of a type related to itself. */
  ghost predicate DynamicsIn(r: Rel, v: Value)
    decreases v
  {
    match v
    case VBasic(_, _) => true
    case VNil(_) => true
    case VPtr(_, target) => DynamicsIn(r, target)
    case VSlice(_, es) => forall i :: 0 <= i < |es| ==> DynamicsIn(r, es[i])
    case VMap(_, m) => forall k :: IsKey(v, k) ==> DynamicsIn(r, k) && DynamicsIn(r, m[k])
    case VIface(_, d) => r(d.t, d.t) && DynamicsIn(r, d)
    case VStruct(_, fs) => forall n :: n in fs ==> DynamicsIn(r, fs[n])
  }

  ghost predicate FieldsOk(u: Universe, r: Rel, fs: seq<FieldDesc>, gs: seq<FieldDesc>) {
    && (forall n :: Named(fs, n) <==> Named(gs, n))
    && (forall i, j :: 0 <= i < |fs| && 0 <= j < |gs| && fs[i].name == gs[j].name ==> r(fs[i].t, gs[j].t))
  }

  /** Every struct inside v, also in map keys and interfaces, has only exported fields. */
  ghost predicate Exposed(u: Universe, v: Value)
    decreases v
  {
    match v
    case VBasic(_, _) => true
    case VNil(_) => true
    case VPtr(_, target) => Exposed(u, target)
    case VSlice(_, es) => forall i :: 0 <= i < |es| ==> Exposed(u, es[i])
    case VMap(_, m) => forall k :: IsKey(v, k) ==> Exposed(u, k) && Exposed(u, m[k])
    case VIface(_, d) => Exposed(u, d)
    case VStruct(_, fs) => forall n :: n in fs ==> u.exported(n) && Exposed(u, fs[n])
  }

  /** st and dt agree in kind and name, leaves carry over, and their parts are related again. */
  ghost predicate PairOk(u: Universe, fl: Flags, r: Rel, st: TypeId, dt: TypeId) {
    && (fl.allowNames || u.name(dt) == u.name(st))
    && match u.desc(st)
       case BasicT => u.desc(dt).BasicT? && forall b :: LeafOk(u, st, dt, b)
       case PtrT(e) => u.desc(dt).PtrT? && r(e, u.desc(dt).elem)
       case SliceT(e) => u.desc(dt).SliceT? && r(e, u.desc(dt).elem)
       case MapT(k, e) => u.desc(dt).MapT? && r(k, u.desc(dt).key) && r(e, u.desc(dt).elem)
       case IfaceT => u.desc(dt).IfaceT? && forall d :: IfaceOk(u, r, st, dt, d)
       case StructT(fs) => u.desc(dt).StructT? && FieldsOk(u, r, fs, u.desc(dt).fields)
  }

  /** Related types match all the way down; recursive types are allowed. */
  ghost predicate Matching(u: Universe, fl: Flags, r: Rel) {
    forall st, dt :: r(st, dt) ==> PairOk(u, fl, r, st, dt)
  }

  /** No registered, ignored, defaulting, field-copy or key-mapping rules. */
  ghost predicate Plain(c: Converter) {
    && c.conversionFuncs == map[] && c.generatedConversionFuncs == map[] && c.ignoredConversions == {}
    && c.defaultingFuncs == map[] && c.structFieldDests == map[] && c.structFieldSources == map[]
    && c.mapping == None
    && (forall t :: HasType(c.u, c.u.zero(t), t))
    && (forall m: map<Value, Value>, k: Value :: k in m ==> k in c.u.order(m))
  }

  ghost predicate Setup(x: Ctx, r: Rel) {
    Valid(x.c) && Plain(x.c) && Matching(x.c.u, x.fl, r)
  }

  /** The outcome is a value of type dt with the source's tree. */
  ghost predicate Carried(u: Universe, sv: Value, o: Outcome, dt: TypeId) {
    o.Done? && HasType(u, o.v, dt) && Like(sv, o.v)
  }

  /** The value has been carried if it is exposed, and refused otherwise. */
  ghost predicate Resolved(u: Universe, sv: Value, o: Outcome, dt: TypeId) {
    if Exposed(u, sv) then Carried(u, sv, o, dt) else o == Failed
  }

  lemma {:induction false} PlainConv(x: Ctx, sa: bool, sv: Value, canSet: bool, dv: Value, stag: string, dtag: string)
    requires Valid(x.c) && Plain(x.c)
    ensures Conv(x, sa, sv, canSet, dv, stag, dtag) == DefConv(x, sa, sv, canSet, dv)
  {
  }

  /** The main step: a conversion between related types carries the tree, or fails at an unexported field. */
  lemma {:induction false} ConvResolved(x: Ctx, r: Rel, sa: bool, sv: Value, dv: Value, stag: string, dtag: string)
    requires Setup(x, r) && r(sv.t, dv.t) && HasType(x.c.u, sv, sv.t) && HasType(x.c.u, dv, dv.t)
    requires DynamicsIn(r, sv)
    ensures Resolved(x.c.u, sv, Conv(x, sa, sv, true, dv, stag, dtag), dv.t)
    decreases x.c.size(sv), 4
  {
    var u := x.c.u;
    PlainConv(x, sa, sv, true, dv, stag, dtag);
    assert PairOk(u, x.fl, r, sv.t, dv.t);
    if sv.VBasic? {
      BasicCarries(x, r, sa, sv, dv);
    } else {
      assert DefConv(x, sa, sv, true, dv) == KindConv(x, sa, sv, dv);
      match u.desc(sv.t)
      case BasicT =>
      case PtrT(e) => if sv.VPtr? { PtrResolved(x, r, sa, sv, dv); }
      case SliceT(e) => if sv.VSlice? { SliceResolved(x, r, sv, dv.t, 0, []); }
      case MapT(k, e) => if sv.VMap? { WholeMapResolved(x, r, sa, sv, dv); }
      case IfaceT => if sv.VIface? { IfaceResolved(x, r, sa, sv, dv); }
      case StructT(fs) => StructResolved(x, r, sa, sv, dv);
    }
  }

  lemma {:induction false} BasicCarries(x: Ctx, r: Rel, sa: bool, sv: Value, dv: Value)
    requires Setup(x, r) && r(sv.t, dv.t) && HasType(x.c.u, sv, sv.t) && sv.VBasic?
    ensures Carried(x.c.u, sv, DefConv(x, sa, sv, true, dv), dv.t)
  {
    assert PairOk(x.c.u, x.fl, r, sv.t, dv.t);
    assert LeafOk(x.c.u, sv.t, dv.t, sv.bits);
    assert sv == VBasic(sv.t, sv.bits);
  }

  lemma {:induction false} PtrResolved(x: Ctx, r: Rel, sa: bool, sv: Value, dv: Value)
    requires Setup(x, r) && r(sv.t, dv.t) && HasType(x.c.u, sv, sv.t) && sv.VPtr?
    requires DynamicsIn(r, sv)
    ensures Resolved(x.c.u, sv, KindConv(x, sa, sv, dv), dv.t)
    decreases x.c.size(sv), 3
  {
    var u := x.c.u;
    assert PairOk(u, x.fl, r, sv.t, dv.t);
    assert Child(sv.target, sv);
    ConvResolved(x, r, true, sv.target, u.zero(u.desc(dv.t).elem), "", "");
  }

  lemma {:induction false} IfaceUnrolled(x: Ctx, sa: bool, sv: Value, dv: Value)
    requires Valid(x.c) && sv.VIface? && x.c.u.desc(dv.t).IfaceT?
    ensures KindConv(x, sa, sv, dv) == Stored(x.c.u, dv.t, Conv(x, false, sv.dyn, true, x.c.u.zero(sv.dyn.t), "", ""))
  {
  }

  lemma {:induction false} StoredResolved(u: Universe, r: Rel, sv: Value, o: Outcome, dt: TypeId)
    requires sv.VIface? && HasType(u, sv, sv.t) && u.desc(dt).IfaceT?
    requires r(sv.dyn.t, sv.dyn.t) && IfaceOk(u, r, sv.t, dt, sv.dyn.t)
    requires Resolved(u, sv.dyn, o, sv.dyn.t)
    ensures Resolved(u, sv, Stored(u, dt, o), dt)
  {
  }

  lemma {:induction false} IfaceResolved(x: Ctx, r: Rel, sa: bool, sv: Value, dv: Value)
    requires Setup(x, r) && r(sv.t, dv.t) && HasType(x.c.u, sv, sv.t) && sv.VIface?
    requires DynamicsIn(r, sv)
    ensures Resolved(x.c.u, sv, KindConv(x, sa, sv, dv), dv.t)
    decreases x.c.size(sv), 3
  {
    var u := x.c.u;
    assert PairOk(u, x.fl, r, sv.t, dv.t);
    assert Child(sv.dyn, sv);
    assert r(sv.dyn.t, sv.dyn.t) && IfaceOk(u, r, sv.t, dv.t, sv.dyn.t);
    ConvResolved(x, r, false, sv.dyn, u.zero(sv.dyn.t), "", "");
    IfaceUnrolled(x, sa, sv, dv);
    StoredResolved(u, r, sv, Conv(x, false, sv.dyn, true, u.zero(sv.dyn.t), "", ""), dv.t);
  }

  // ----- slices -----

  /** The first |outs| elements are exposed and have been carried. */
  ghost predicate SliceSoFar(u: Universe, sv: Value, outs: seq<Value>, e: TypeId) {
    && sv.VSlice? && |outs| <= |sv.elems|
    && forall j :: 0 <= j < |outs| ==> Exposed(u, sv.elems[j]) && HasType(u, outs[j], e) && Like(sv.elems[j], outs[j])
  }

  lemma {:induction false} SliceComplete(u: Universe, sv: Value, outs: seq<Value>, dt: TypeId)
    requires u.desc(dt).SliceT? && SliceSoFar(u, sv, outs, u.desc(dt).elem) && |outs| == |sv.elems|
    ensures Resolved(u, sv, Done(VSlice(dt, outs)), dt)
  {
  }

  lemma {:induction false} SliceUnrolled(x: Ctx, sv: Value, dt: TypeId, e: TypeId, i: nat, outs: seq<Value>)
    requires Valid(x.c) && sv.VSlice? && i < |sv.elems|
    ensures var o := Conv(x, true, sv.elems[i], true, x.c.u.zero(e), "", "");
            SliceFrom(x, sv, dt, e, i, outs) == if o.Done? then SliceFrom(x, sv, dt, e, i + 1, outs + [o.v]) else o
  {
    assert Child(sv.elems[i], sv);
  }

  lemma {:induction false} SliceResolved(x: Ctx, r: Rel, sv: Value, dt: TypeId, i: nat, outs: seq<Value>)
    requires Setup(x, r) && r(sv.t, dt) && HasType(x.c.u, sv, sv.t) && sv.VSlice?
    requires DynamicsIn(r, sv)
    requires x.c.u.desc(dt).SliceT? && |outs| == i && SliceSoFar(x.c.u, sv, outs, x.c.u.desc(dt).elem)
    ensures Resolved(x.c.u, sv, SliceFrom(x, sv, dt, x.c.u.desc(dt).elem, i, outs), dt)
    decreases x.c.size(sv), 3, |sv.elems| - i
  {
    if i == |sv.elems| {
      SliceComplete(x.c.u, sv, outs, dt);
    } else {
      var outs' := SliceRound(x, r, sv, dt, i, outs);
      if Exposed(x.c.u, sv.elems[i]) {
        SliceResolved(x, r, sv, dt, i + 1, outs');
      }
    }
  }

  lemma {:induction false} SliceStep(u: Universe, sv: Value, outs: seq<Value>, o: Outcome, e: TypeId)
    requires SliceSoFar(u, sv, outs, e) && |outs| < |sv.elems|
    requires Exposed(u, sv.elems[|outs|]) && Carried(u, sv.elems[|outs|], o, e)
    ensures SliceSoFar(u, sv, outs + [o.v], e)
  {
  }

  lemma {:induction false} SliceRound(x: Ctx, r: Rel, sv: Value, dt: TypeId, i: nat, outs: seq<Value>) returns (outs': seq<Value>)
    requires Setup(x, r) && r(sv.t, dt) && HasType(x.c.u, sv, sv.t) && sv.VSlice? && DynamicsIn(r, sv)
    requires x.c.u.desc(dt).SliceT? && |outs| == i < |sv.elems| && SliceSoFar(x.c.u, sv, outs, x.c.u.desc(dt).elem)
    ensures var e := x.c.u.desc(dt).elem;
            if Exposed(x.c.u, sv.elems[i])
            then && |outs'| == i + 1 && SliceSoFar(x.c.u, sv, outs', e)
                 && SliceFrom(x, sv, dt, e, i, outs) == SliceFrom(x, sv, dt, e, i + 1, outs')
            else SliceFrom(x, sv, dt, e, i, outs) == Failed
    decreases x.c.size(sv), 2
  {
    var e := x.c.u.desc(dt).elem;
    var o := Conv(x, true, sv.elems[i], true, x.c.u.zero(e), "", "");
    ElementResolved(x, r, sv, dt, i);
    SliceUnrolled(x, sv, dt, e, i, outs);
    outs' := outs;
    if Exposed(x.c.u, sv.elems[i]) {
      SliceStep(x.c.u, sv, outs, o, e);
      outs' := outs + [o.v];
    }
  }

  lemma {:induction false} ElementResolved(x: Ctx, r: Rel, sv: Value, dt: TypeId, i: nat)
    requires Setup(x, r) && r(sv.t, dt) && HasType(x.c.u, sv, sv.t) && sv.VSlice? && i < |sv.elems|
    requires DynamicsIn(r, sv) && x.c.u.desc(dt).SliceT?
    ensures var e := x.c.u.desc(dt).elem;
            Resolved(x.c.u, sv.elems[i], Conv(x, true, sv.elems[i], true, x.c.u.zero(e), "", ""), e)
    decreases x.c.size(sv), 1
  {
    assert PairOk(x.c.u, x.fl, r, sv.t, dt);
    assert Child(sv.elems[i], sv);
    ConvResolved(x, r, true, sv.elems[i], x.c.u.zero(x.c.u.desc(dt).elem), "", "");
  }

  // ----- maps -----

  /** The first i keys, and no others, have their entries in `out`. */
  ghost predicate MapSoFar(u: Universe, sv: Value, keys: seq<Value>, i: nat, w: Value) {
    && sv.VMap? && w.VMap? && u.desc(w.t).MapT? && i <= |keys|
    && (forall k' :: IsKey(w, k') ==> HasType(u, k', u.desc(w.t).key) && HasType(u, w.m[k'], u.desc(w.t).elem))
    && (forall j :: 0 <= j < i ==> Partnered(sv, keys[j], w))
    && (forall k' :: IsKey(w, k') ==> exists k :: Paired(sv, k, w, k'))
  }

  ghost predicate Partnered(v: Value, k: Value, w: Value)
    requires v.VMap? && w.VMap?
  {
    exists k' :: Paired(v, k, w, k')
  }

  /** Two source keys with the same converted key are the same key. */
  lemma {:induction false} KeyInjective(u: Universe, k1: Value, k2: Value, dk: Value, kt: TypeId)
    requires Like(k1, dk) && Like(k2, dk) && HasType(u, k1, kt) && HasType(u, k2, kt)
    ensures k1 == k2
  {
    LikeSymmetric(k1, dk);
    LikeSymmetric(k2, dk);
    LikeUnique(u, dk, k1, k2, kt);
  }

  lemma {:induction false} MapStep(u: Universe, sv: Value, keys: seq<Value>, i: nat, w: Value, dk: Value, r: Value)
    requires MapSoFar(u, sv, keys, i, w) && i < |keys| && keys[i] in sv.m
    requires HasType(u, sv, sv.t) && u.desc(sv.t).MapT?
    requires HasType(u, dk, u.desc(w.t).key) && Like(keys[i], dk)
    requires HasType(u, r, u.desc(w.t).elem) && Like(sv.m[keys[i]], r)
    ensures MapSoFar(u, sv, keys, i + 1, VMap(w.t, w.m[dk := r]))
  {
    var w' := VMap(w.t, w.m[dk := r]);
    assert Paired(sv, keys[i], w', dk);
    forall k, k' | Paired(sv, k, w, k') ensures Paired(sv, k, w', k') {
      if k' == dk {
        KeyInjective(u, k, keys[i], dk, u.desc(sv.t).key);
      }
    }
    forall j | 0 <= j < i + 1 ensures Partnered(sv, keys[j], w') {
      if j < i {
        assert Partnered(sv, keys[j], w);
        var k' :| Paired(sv, keys[j], w, k');
        assert Paired(sv, keys[j], w', k');
      }
    }
    forall k' | IsKey(w', k')
      ensures HasType(u, k', u.desc(w.t).key) && HasType(u, w'.m[k'], u.desc(w.t).elem)
      ensures exists k :: Paired(sv, k, w', k')
    {
      if k' != dk {
        assert IsKey(w, k');
        var k :| Paired(sv, k, w, k');
        assert Paired(sv, k, w', k');
      }
    }
  }

  ghost predicate EntryExposed(u: Universe, sv: Value, k: Value)
    requires sv.VMap? && k in sv.m
  {
    Exposed(u, k) && Exposed(u, sv.m[k])
  }

  lemma {:induction false} MapComplete(u: Universe, sv: Value, keys: seq<Value>, w: Value)
    requires HasType(u, sv, sv.t) && MapSoFar(u, sv, keys, |keys|, w) && forall k :: k in keys <==> k in sv.m
    ensures Carried(u, sv, Done(w), w.t)
  {
    forall k | IsKey(sv, k) ensures exists k' :: Paired(sv, k, w, k') {
      assert k in keys;
      var j :| 0 <= j < |keys| && keys[j] == k;
      assert Partnered(sv, keys[j], w);
    }
    assert forall k' :: k' in w.m ==> IsKey(w, k');
  }

  lemma {:induction false} MapUnrolled(
    x: Ctx, sv: Value, dt: TypeId, kt: TypeId, e: TypeId, keys: seq<Value>, i: nat, out: map<Value, Value>)
    requires Valid(x.c) && sv.VMap? && i < |keys| && forall k :: k in keys ==> k in sv.m
    ensures var k := keys[i];
            var dk, dv := Conv(x, false, k, true, x.c.u.zero(kt), "", ""), Conv(x, false, sv.m[k], true, x.c.u.zero(e), "", "");
            MapFrom(x, sv, dt, kt, e, keys, i, out) ==
              if dk.Done? && dv.Done? then MapFrom(x, sv, dt, kt, e, keys, i + 1, out[dk.v := dv.v])
              else if dk.Done? then dv else dk
  {
  }

  ghost predicate EntriesExposed(u: Universe, sv: Value, keys: seq<Value>, i: nat)
    requires sv.VMap? && (forall k :: k in keys ==> k in sv.m) && i <= |keys|
  {
    forall j :: 0 <= j < i ==> EntryExposed(u, sv, keys[j])
  }

  lemma {:induction false} ExposedByEntries(u: Universe, sv: Value, keys: seq<Value>)
    requires sv.VMap? && forall k :: k in keys <==> k in sv.m
    ensures Exposed(u, sv) <==> EntriesExposed(u, sv, keys, |keys|)
  {
    if EntriesExposed(u, sv, keys, |keys|) {
      forall k | IsKey(sv, k) ensures Exposed(u, k) && Exposed(u, sv.m[k]) {
        var j :| 0 <= j < |keys| && keys[j] == k;
        assert EntryExposed(u, sv, keys[j]);
      }
    } else {
      var j :| 0 <= j < |keys| && !EntryExposed(u, sv, keys[j]);
      assert keys[j] in keys && IsKey(sv, keys[j]);
    }
  }

  /** The conversion of one entry, key and value. */
  lemma {:induction false} EntryResolved(x: Ctx, r: Rel, sv: Value, k: Value, dt: TypeId)
    requires Setup(x, r) && r(sv.t, dt) && HasType(x.c.u, sv, sv.t) && sv.VMap? && k in sv.m
    requires x.c.u.desc(sv.t).MapT? && x.c.u.desc(dt).MapT? && DynamicsIn(r, sv)
    ensures HasType(x.c.u, k, x.c.u.desc(sv.t).key)
    ensures Resolved(x.c.u, k, Conv(x, false, k, true, x.c.u.zero(x.c.u.desc(dt).key), "", ""), x.c.u.desc(dt).key)
    ensures Resolved(x.c.u, sv.m[k], Conv(x, false, sv.m[k], true, x.c.u.zero(x.c.u.desc(dt).elem), "", ""), x.c.u.desc(dt).elem)
    decreases x.c.size(sv), 0
  {
    var u := x.c.u;
    assert PairOk(u, x.fl, r, sv.t, dt);
    assert Child(k, sv) && IsKey(sv, k);
    assert sv.m[k] in sv.m.Values && Child(sv.m[k], sv);
    ConvResolved(x, r, false, k, u.zero(u.desc(dt).key), "", "");
    ConvResolved(x, r, false, sv.m[k], u.zero(u.desc(dt).elem), "", "");
  }

  /** One round of the loop: on to the next key, or failure of the whole. */
  lemma {:induction false} MapRound(x: Ctx, r: Rel, sv: Value, keys: seq<Value>, i: nat, w: Value) returns (w': Value)
    requires Setup(x, r) && r(sv.t, w.t) && HasType(x.c.u, sv, sv.t) && MapSoFar(x.c.u, sv, keys, i, w)
    requires (forall k :: k in keys <==> k in sv.m) && i < |keys|
    requires x.c.u.desc(sv.t).MapT? && DynamicsIn(r, sv)
    ensures var kt, e := x.c.u.desc(w.t).key, x.c.u.desc(w.t).elem;
            if EntryExposed(x.c.u, sv, keys[i])
            then && w'.VMap? && w'.t == w.t && MapSoFar(x.c.u, sv, keys, i + 1, w')
                 && MapFrom(x, sv, w.t, kt, e, keys, i, w.m) == MapFrom(x, sv, w.t, kt, e, keys, i + 1, w'.m)
            else MapFrom(x, sv, w.t, kt, e, keys, i, w.m) == Failed
    decreases x.c.size(sv), 2
  {
    var u := x.c.u;
    var k, kt, e := keys[i], u.desc(w.t).key, u.desc(w.t).elem;
    assert k in keys;
    EntryResolved(x, r, sv, k, w.t);
    MapUnrolled(x, sv, w.t, kt, e, keys, i, w.m);
    w' := w;
    if EntryExposed(u, sv, k) {
      var dk, dv := Conv(x, false, k, true, u.zero(kt), "", "").v, Conv(x, false, sv.m[k], true, u.zero(e), "", "").v;
      MapStep(u, sv, keys, i, w, dk, dv);
      w' := VMap(w.t, w.m[dk := dv]);
    }
  }

  lemma {:induction false} MapResolved(x: Ctx, r: Rel, sv: Value, keys: seq<Value>, i: nat, w: Value)
    requires Setup(x, r) && r(sv.t, w.t) && HasType(x.c.u, sv, sv.t) && MapSoFar(x.c.u, sv, keys, i, w)
    requires forall k :: k in keys <==> k in sv.m
    requires x.c.u.desc(sv.t).MapT? && DynamicsIn(r, sv) && EntriesExposed(x.c.u, sv, keys, i)
    ensures var o := MapFrom(x, sv, w.t, x.c.u.desc(w.t).key, x.c.u.desc(w.t).elem, keys, i, w.m);
            if EntriesExposed(x.c.u, sv, keys, |keys|) then Carried(x.c.u, sv, o, w.t) else o == Failed
    decreases x.c.size(sv), 3, |keys| - i
  {
    if i == |keys| {
      MapComplete(x.c.u, sv, keys, w);
      assert VMap(w.t, w.m) == w;
    } else {
      assert keys[i] in keys;
      var w' := MapRound(x, r, sv, keys, i, w);
      if EntryExposed(x.c.u, sv, keys[i]) {
        MapResolved(x, r, sv, keys, i + 1, w');
      }
    }
  }

  lemma {:induction false} WholeMapResolved(x: Ctx, r: Rel, sa: bool, sv: Value, dv: Value)
    requires Setup(x, r) && r(sv.t, dv.t) && HasType(x.c.u, sv, sv.t) && sv.VMap? && x.c.u.desc(sv.t).MapT?
    requires DynamicsIn(r, sv)
    ensures Resolved(x.c.u, sv, KindConv(x, sa, sv, dv), dv.t)
    decreases x.c.size(sv), 3, |x.c.u.order(sv.m)| + 1
  {
    assert PairOk(x.c.u, x.fl, r, sv.t, dv.t);
    var keys := x.c.u.order(sv.m);
    assert forall k :: k in keys <==> k in sv.m;
    MapResolved(x, r, sv, keys, 0, VMap(dv.t, map[]));
    ExposedByEntries(x.c.u, sv, keys);
  }

  // ----- structs -----

  /** The fields are the source's, and those named in the first i keys have been carried. */
  ghost predicate FieldsSoFar(sv: Value, keys: seq<string>, i: nat, fields: map<string, Value>)
    requires sv.VStruct?
  {
    && i <= |keys| && fields.Keys == sv.fields.Keys && (forall n :: n in keys ==> n in fields)
    && forall j :: 0 <= j < i ==> keys[j] in fields && Like(sv.fields[keys[j]], fields[keys[j]])
  }

  lemma {:induction false} FieldRelated(x: Ctx, r: Rel, sv: Value, dt: TypeId, fields: map<string, Value>, n: string)
    requires Setup(x, r) && r(sv.t, dt) && HasType(x.c.u, sv, sv.t) && HasType(x.c.u, VStruct(dt, fields), dt)
    requires sv.VStruct? && x.c.u.desc(sv.t).StructT? && n in fields
    ensures x.c.u.desc(dt).StructT? && n in sv.fields
    ensures var sf, df := sv.fields[n], fields[n];
            r(sf.t, df.t) && HasType(x.c.u, sf, sf.t) && HasType(x.c.u, df, df.t)
  {
    var u := x.c.u;
    assert PairOk(u, x.fl, r, sv.t, dt);
    var fs, gs := u.desc(sv.t).fields, u.desc(dt).fields;
    assert Named(gs, n) && Named(fs, n);
    var i :| 0 <= i < |fs| && fs[i].name == n;
    var j :| 0 <= j < |gs| && gs[j].name == n;
    assert HasType(u, sv.fields[n], fs[i].t) && HasType(u, fields[n], gs[j].t);
  }

  lemma {:induction false} FieldStored(u: Universe, dt: TypeId, fields: map<string, Value>, n: string, v: Value)
    requires HasType(u, VStruct(dt, fields), dt) && u.desc(dt).StructT? && n in fields
    requires HasType(u, v, fields[n].t)
    ensures HasType(u, VStruct(dt, fields[n := v]), dt)
  {
    var gs := u.desc(dt).fields;
    var w := VStruct(dt, fields[n := v]);
    forall j | 0 <= j < |gs| ensures gs[j].name in w.fields && HasType(u, w.fields[gs[j].name], gs[j].t) {
      assert HasType(u, fields[gs[j].name], gs[j].t);
    }
  }

  lemma {:induction false} PlainStep(x: Ctx, fa: bool, sv: Value, dt: TypeId, key: string, kv: KV)
    requires Valid(x.c) && Plain(x.c) && sv.VStruct? && key in sv.fields && key in kv.fields
    ensures var stag, dtag := TagOf(x.c.u, sv.t, key), TagOf(x.c.u, dt, key);
            KVStep(x, fa, sv, dt, key, kv) ==
              KVStore(KV(kv.fields, stag, dtag), key,
                      Conv(x, fa, sv.fields[key], x.c.u.exported(key), kv.fields[key], stag, dtag))
  {
    assert CheckField(x, fa, sv, key, kv) == Checked(false, KVDone(kv));
  }

  ghost predicate FieldExposed(u: Universe, sv: Value, n: string)
    requires sv.VStruct? && n in sv.fields
  {
    u.exported(n) && Exposed(u, sv.fields[n])
  }

  /** The round for this field has carried it and left the struct well typed. */
  ghost predicate FieldCarried(u: Universe, sv: Value, dt: TypeId, key: string, kv: KV, o: KVOutcome)
    requires sv.VStruct? && key in sv.fields
  {
    && o.KVDone? && key in o.kv.fields
    && HasType(u, VStruct(dt, o.kv.fields), dt)
    && Like(sv.fields[key], o.kv.fields[key])
    && o.kv.fields == kv.fields[key := o.kv.fields[key]]
  }

  /** What the round stores, given how the field's conversion came out. */
  lemma {:induction false} FieldOutcome(u: Universe, sv: Value, dt: TypeId, key: string, kv: KV, stag: string, dtag: string, o: Outcome)
    requires sv.VStruct? && key in sv.fields && key in kv.fields && u.desc(dt).StructT?
    requires HasType(u, VStruct(dt, kv.fields), dt) && Resolved(u, sv.fields[key], o, kv.fields[key].t)
    ensures var out := KVStore(KV(kv.fields, stag, dtag), key, o);
            if Exposed(u, sv.fields[key]) then FieldCarried(u, sv, dt, key, kv, out) else out == KVFailed
  {
    if Exposed(u, sv.fields[key]) {
      FieldStored(u, dt, kv.fields, key, o.v);
    }
  }

  lemma {:induction false} HiddenField(x: Ctx, fa: bool, sv: Value, dt: TypeId, key: string, kv: KV)
    requires Valid(x.c) && Plain(x.c) && sv.VStruct? && key in sv.fields && key in kv.fields && !x.c.u.exported(key)
    ensures KVStep(x, fa, sv, dt, key, kv) == KVFailed
  {
    PlainStep(x, fa, sv, dt, key, kv);
    PlainConv(x, fa, sv.fields[key], false, kv.fields[key], TagOf(x.c.u, sv.t, key), TagOf(x.c.u, dt, key));
  }

  lemma {:induction false} FieldResolved(x: Ctx, r: Rel, fa: bool, sv: Value, dt: TypeId, key: string, kv: KV, stag: string, dtag: string)
    requires Setup(x, r) && r(sv.t, dt) && HasType(x.c.u, sv, sv.t) && sv.VStruct? && x.c.u.desc(sv.t).StructT?
    requires HasType(x.c.u, VStruct(dt, kv.fields), dt) && key in kv.fields
    requires DynamicsIn(r, sv)
    ensures x.c.u.desc(dt).StructT? && key in sv.fields
    ensures Resolved(x.c.u, sv.fields[key], Conv(x, fa, sv.fields[key], true, kv.fields[key], stag, dtag), kv.fields[key].t)
    decreases x.c.size(sv), 0
  {
    FieldRelated(x, r, sv, dt, kv.fields, key);
    assert sv.fields[key] in sv.fields.Values && Child(sv.fields[key], sv);
    ConvResolved(x, r, fa, sv.fields[key], kv.fields[key], stag, dtag);
  }

  /** One round of the field loop carries an exposed field, and fails at any other. */
  lemma {:induction false} OneFieldResolved(x: Ctx, r: Rel, fa: bool, sv: Value, dt: TypeId, key: string, kv: KV)
    requires Setup(x, r) && r(sv.t, dt) && HasType(x.c.u, sv, sv.t) && sv.VStruct? && x.c.u.desc(sv.t).StructT?
    requires HasType(x.c.u, VStruct(dt, kv.fields), dt) && key in kv.fields
    requires DynamicsIn(r, sv)
    ensures key in sv.fields
    ensures var o := KVStep(x, fa, sv, dt, key, kv);
            if FieldExposed(x.c.u, sv, key) then FieldCarried(x.c.u, sv, dt, key, kv, o) else o == KVFailed
    decreases x.c.size(sv), 1
  {
    var u := x.c.u;
    var stag, dtag := TagOf(u, sv.t, key), TagOf(u, dt, key);
    FieldResolved(x, r, fa, sv, dt, key, kv, stag, dtag);
    if u.exported(key) {
      PlainStep(x, fa, sv, dt, key, kv);
      FieldOutcome(u, sv, dt, key, kv, stag, dtag, Conv(x, fa, sv.fields[key], true, kv.fields[key], stag, dtag));
    } else {
      HiddenField(x, fa, sv, dt, key, kv);
    }
  }

  lemma {:induction false} FieldsStep(
    sv: Value, keys: seq<string>, i: nat, fields: map<string, Value>, fields': map<string, Value>)
    requires sv.VStruct? && FieldsSoFar(sv, keys, i, fields) && i < |keys|
    requires keys[i] in sv.fields && keys[i] in fields'
    requires fields' == fields[keys[i] := fields'[keys[i]]] && Like(sv.fields[keys[i]], fields'[keys[i]])
    ensures FieldsSoFar(sv, keys, i + 1, fields')
  {
    assert keys[i] in keys;
    assert fields'.Keys == fields.Keys;
  }

  ghost predicate FieldsExposed(u: Universe, sv: Value, keys: seq<string>, i: nat)
    requires sv.VStruct? && (forall n :: n in keys ==> n in sv.fields) && i <= |keys|
  {
    forall j :: 0 <= j < i ==> FieldExposed(u, sv, keys[j])
  }

  lemma {:induction false} KVUnrolled(x: Ctx, fa: bool, sv: Value, dt: TypeId, keys: seq<string>, i: nat, kv: KV)
    requires Valid(x.c) && i < |keys|
    ensures var o := KVStep(x, fa, sv, dt, keys[i], kv);
            KVFrom(x, fa, sv, dt, keys, i, kv) == if o.KVDone? then KVFrom(x, fa, sv, dt, keys, i + 1, o.kv) else o
  {
  }

  /** The field loop has carried all fields. */
  ghost predicate LoopCarried(u: Universe, sv: Value, dt: TypeId, keys: seq<string>, o: KVOutcome)
    requires sv.VStruct?
  {
    o.KVDone? && HasType(u, VStruct(dt, o.kv.fields), dt) && FieldsSoFar(sv, keys, |keys|, o.kv.fields)
  }

  /** One round of the loop: on to the next key, or failure of the whole. */
  lemma {:induction false} KVRound(x: Ctx, r: Rel, fa: bool, sv: Value, dt: TypeId, keys: seq<string>, i: nat, kv: KV) returns (kv': KV)
    requires Setup(x, r) && r(sv.t, dt) && HasType(x.c.u, sv, sv.t) && sv.VStruct? && x.c.u.desc(sv.t).StructT?
    requires HasType(x.c.u, VStruct(dt, kv.fields), dt) && FieldsSoFar(sv, keys, i, kv.fields) && i < |keys|
    requires DynamicsIn(r, sv)
    ensures keys[i] in sv.fields
    ensures if FieldExposed(x.c.u, sv, keys[i])
            then && HasType(x.c.u, VStruct(dt, kv'.fields), dt) && FieldsSoFar(sv, keys, i + 1, kv'.fields)
                 && KVFrom(x, fa, sv, dt, keys, i, kv) == KVFrom(x, fa, sv, dt, keys, i + 1, kv')
            else KVFrom(x, fa, sv, dt, keys, i, kv) == KVFailed
    decreases x.c.size(sv), 2
  {
    assert keys[i] in keys;
    OneFieldResolved(x, r, fa, sv, dt, keys[i], kv);
    KVUnrolled(x, fa, sv, dt, keys, i, kv);
    kv' := kv;
    if FieldExposed(x.c.u, sv, keys[i]) {
      kv' := KVStep(x, fa, sv, dt, keys[i], kv).kv;
      FieldsStep(sv, keys, i, kv.fields, kv'.fields);
    }
  }

  lemma {:induction false} KVResolved(x: Ctx, r: Rel, fa: bool, sv: Value, dt: TypeId, keys: seq<string>, i: nat, kv: KV)
    requires Setup(x, r) && r(sv.t, dt) && HasType(x.c.u, sv, sv.t) && sv.VStruct? && x.c.u.desc(sv.t).StructT?
    requires HasType(x.c.u, VStruct(dt, kv.fields), dt) && FieldsSoFar(sv, keys, i, kv.fields)
    requires (forall n :: n in keys ==> n in sv.fields) && FieldsExposed(x.c.u, sv, keys, i)
    requires DynamicsIn(r, sv)
    ensures var o := KVFrom(x, fa, sv, dt, keys, i, kv);
            if FieldsExposed(x.c.u, sv, keys, |keys|) then LoopCarried(x.c.u, sv, dt, keys, o) else o == KVFailed
    decreases x.c.size(sv), 3, |keys| - i
  {
    if i == |keys| {
      assert KVFrom(x, fa, sv, dt, keys, i, kv) == KVDone(kv);
    } else {
      var kv' := KVRound(x, r, fa, sv, dt, keys, i, kv);
      if FieldExposed(x.c.u, sv, keys[i]) {
        KVResolved(x, r, fa, sv, dt, keys, i + 1, kv');
      }
    }
  }

  lemma {:induction false} SameNames(x: Ctx, r: Rel, sv: Value, dv: Value, keys: seq<string>)
    requires Setup(x, r) && r(sv.t, dv.t) && HasType(x.c.u, sv, sv.t) && HasType(x.c.u, dv, dv.t)
    requires sv.VStruct? && dv.VStruct? && x.c.u.desc(sv.t).StructT? && x.c.u.desc(dv.t).StructT?
    requires keys == FieldNames(x.c.u.desc(sv.t).fields) || keys == FieldNames(x.c.u.desc(dv.t).fields)
    ensures forall n :: n in keys <==> n in dv.fields
    ensures sv.fields.Keys == dv.fields.Keys
  {
    var u := x.c.u;
    var fs, gs := u.desc(sv.t).fields, u.desc(dv.t).fields;
    assert PairOk(u, x.fl, r, sv.t, dv.t);
    forall n ensures (n in keys <==> n in dv.fields) && (n in sv.fields <==> n in dv.fields) {
      NamesListed(fs, n);
      NamesListed(gs, n);
      assert Named(fs, n) <==> Named(gs, n);
    }
  }

  lemma {:induction false} ExposedByKeys(u: Universe, sv: Value, keys: seq<string>)
    requires sv.VStruct? && forall n :: n in keys <==> n in sv.fields
    ensures Exposed(u, sv) <==> FieldsExposed(u, sv, keys, |keys|)
  {
    if FieldsExposed(u, sv, keys, |keys|) {
      forall n | n in sv.fields ensures FieldExposed(u, sv, n) {
        var j :| 0 <= j < |keys| && keys[j] == n;
      }
    } else {
      var j :| 0 <= j < |keys| && !FieldExposed(u, sv, keys[j]);
      assert keys[j] in keys;
    }
  }

  lemma {:induction false} StructResolved(x: Ctx, r: Rel, sa: bool, sv: Value, dv: Value)
    requires Setup(x, r) && r(sv.t, dv.t) && HasType(x.c.u, sv, sv.t) && HasType(x.c.u, dv, dv.t)
    requires x.c.u.desc(sv.t).StructT?
    requires DynamicsIn(r, sv)
    ensures Resolved(x.c.u, sv, KindConv(x, sa, sv, dv), dv.t)
    decreases x.c.size(sv), 3
  {
    var u := x.c.u;
    assert PairOk(u, x.fl, r, sv.t, dv.t);
    var keys := Keys(u, if x.fl.sourceToDest then sv else dv).value;
    SameNames(x, r, sv, dv, keys);
    assert dv == VStruct(dv.t, dv.fields);
    KVResolved(x, r, sa, sv, dv.t, keys, 0, KV(dv.fields, "", ""));
    ExposedByKeys(u, sv, keys);
    StructIsLoop(x, sa, sv, dv, keys);
    if Exposed(u, sv) {
      LoopIsWhole(u, sv, dv.t, keys, KVFrom(x, sa, sv, dv.t, keys, 0, KV(dv.fields, "", "")));
    }
  }

  lemma {:induction false} LoopIsWhole(u: Universe, sv: Value, dt: TypeId, keys: seq<string>, o: KVOutcome)
    requires sv.VStruct? && LoopCarried(u, sv, dt, keys, o) && forall n :: n in keys <==> n in sv.fields
    ensures Carried(u, sv, Done(VStruct(dt, o.kv.fields)), dt)
  {
    var w := VStruct(dt, o.kv.fields);
    forall n | n in sv.fields ensures n in w.fields && Like(sv.fields[n], w.fields[n]) {
      assert n in keys;
      var j :| 0 <= j < |keys| && keys[j] == n;
    }
  }

  lemma {:induction false} StructIsLoop(x: Ctx, sa: bool, sv: Value, dv: Value, keys: seq<string>)
    requires Valid(x.c) && sv.VStruct? && dv.VStruct? && x.c.u.desc(dv.t).StructT?
    requires Keys(x.c.u, if x.fl.sourceToDest then sv else dv) == Some(keys)
    ensures var o := KVFrom(x, sa, sv, dv.t, keys, 0, KV(dv.fields, "", ""));
            && (o.KVDone? ==> KindConv(x, sa, sv, dv) == Done(VStruct(dv.t, o.kv.fields)))
            && (o == KVFailed ==> KindConv(x, sa, sv, dv) == Failed)
  {
    assert KindConv(x, sa, sv, dv) == StructConv(x, sa, sv, dv);
  }

  lemma {:induction false} NamesListed(fs: seq<FieldDesc>, n: string)
    ensures n in FieldNames(fs) <==> Named(fs, n)
  {
    if Named(fs, n) {
      var i :| 0 <= i < |fs| && fs[i].name == n;
      assert FieldNames(fs)[i] == n;
    }
  }

  // ----- the results -----

  lemma {:induction false} ResolvedMeans(u: Universe, sv: Value, o: Outcome, dt: TypeId)
    requires Resolved(u, sv, o, dt)
    ensures o.Done? <==> Exposed(u, sv)
    ensures o.Done? ==> HasType(u, o.v, dt) && Like(sv, o.v)
    ensures !o.Done? ==> o == Failed
  {
  }

  /** Between matching types conversion succeeds iff every struct in the value has only exported fields; then it carries the tree. */
  lemma {:induction false} ConvCarries(x: Ctx, r: Rel, sa: bool, sv: Value, dv: Value, stag: string, dtag: string)
    requires Setup(x, r) && r(sv.t, dv.t) && HasType(x.c.u, sv, sv.t) && HasType(x.c.u, dv, dv.t) && DynamicsIn(r, sv)
    ensures var o := Conv(x, sa, sv, true, dv, stag, dtag);
            && (o.Done? <==> Exposed(x.c.u, sv))
            && (o.Done? ==> HasType(x.c.u, o.v, dv.t) && Like(sv, o.v))
            && (!o.Done? ==> o == Failed)
  {
    ConvResolved(x, r, sa, sv, dv, stag, dtag);
    ResolvedMeans(x.c.u, sv, Conv(x, sa, sv, true, dv, stag, dtag), dv.t);
  }

  /** What the destination held before makes no difference, to success or to the result. */
  lemma {:induction false} DestinationOverwritten(
    x: Ctx, r: Rel, sv: Value, dv1: Value, dv2: Value, stag: string, dtag: string)
    requires Setup(x, r) && r(sv.t, dv1.t) && dv2.t == dv1.t && DynamicsIn(r, sv)
    requires HasType(x.c.u, sv, sv.t) && HasType(x.c.u, dv1, dv1.t) && HasType(x.c.u, dv2, dv1.t)
    ensures Conv(x, true, sv, true, dv1, stag, dtag) == Conv(x, true, sv, true, dv2, stag, dtag)
  {
    ConvCarries(x, r, true, sv, dv1, stag, dtag);
    ConvCarries(x, r, true, sv, dv2, stag, dtag);
    if Exposed(x.c.u, sv) {
      LikeUnique(x.c.u, sv, Conv(x, true, sv, true, dv1, stag, dtag).v, Conv(x, true, sv, true, dv2, stag, dtag).v, dv1.t);
    }
  }

  ghost function Inverse(r: Rel): Rel {
    (a: TypeId, b: TypeId) => r(b, a)
  }

  /** The carried tree has the same types in its interfaces. */
  lemma {:induction false} LikeDynamics(r: Rel, v: Value, w: Value)
    requires Like(v, w) && DynamicsIn(r, v)
    ensures DynamicsIn(Inverse(r), w)
    decreases v
  {
    match v
    case VBasic(_, _) =>
    case VNil(_) =>
    case VPtr(_, target) => LikeDynamics(r, target, w.target);
    case VSlice(_, es) =>
      forall i | 0 <= i < |es| ensures DynamicsIn(Inverse(r), w.elems[i]) {
        LikeDynamics(r, es[i], w.elems[i]);
      }
    case VMap(_, m) =>
      forall k' | IsKey(w, k') ensures DynamicsIn(Inverse(r), k') && DynamicsIn(Inverse(r), w.m[k']) {
        var k :| Paired(v, k, w, k');
        assert IsKey(v, k);
        LikeDynamics(r, k, k');
        LikeDynamics(r, m[k], w.m[k']);
      }
    case VIface(_, d) => LikeDynamics(r, d, w.dyn);
    case VStruct(_, fs) =>
      forall n | n in fs ensures DynamicsIn(Inverse(r), w.fields[n]) {
        LikeDynamics(r, fs[n], w.fields[n]);
      }
  }

  /** The carried tree has the same field names. */
  lemma {:induction false} LikeExposed(u: Universe, v: Value, w: Value)
    requires Like(v, w) && Exposed(u, v)
    ensures Exposed(u, w)
    decreases v
  {
    match v
    case VBasic(_, _) =>
    case VNil(_) =>
    case VPtr(_, target) => LikeExposed(u, target, w.target);
    case VSlice(_, es) =>
      forall i | 0 <= i < |es| ensures Exposed(u, w.elems[i]) {
        LikeExposed(u, es[i], w.elems[i]);
      }
    case VMap(_, m) =>
      forall k' | IsKey(w, k') ensures Exposed(u, k') && Exposed(u, w.m[k']) {
        var k :| Paired(v, k, w, k');
        assert IsKey(v, k);
        LikeExposed(u, k, k');
        LikeExposed(u, m[k], w.m[k']);
      }
    case VIface(_, d) => LikeExposed(u, d, w.dyn);
    case VStruct(_, fs) =>
      forall n | n in fs ensures u.exported(n) && Exposed(u, w.fields[n]) {
        LikeExposed(u, fs[n], w.fields[n]);
      }
  }

  /**
   Converting there and back, into any destinations of the right types: it gets there iff every struct in the
   value has only exported fields, and then converting back restores the original value.
   */
  lemma {:induction false} RoundTrip(x: Ctx, r: Rel, sv: Value, dv: Value, back: Value)
    requires Setup(x, r) && Matching(x.c.u, x.fl, Inverse(r)) && r(sv.t, dv.t) && back.t == sv.t && DynamicsIn(r, sv)
    requires HasType(x.c.u, sv, sv.t) && HasType(x.c.u, dv, dv.t) && HasType(x.c.u, back, sv.t)
    ensures var o := Conv(x, true, sv, true, dv, "", "");
            && (o.Done? <==> Exposed(x.c.u, sv))
            && (o.Done? ==> Conv(x, true, o.v, true, back, "", "") == Done(sv))
  {
    ConvCarries(x, r, true, sv, dv, "", "");
    if Exposed(x.c.u, sv) {
      var w := Conv(x, true, sv, true, dv, "", "").v;
      LikeSymmetric(sv, w);
      LikeDynamics(r, sv, w);
      LikeExposed(x.c.u, sv, w);
      ConvCarries(x, Inverse(r), true, w, back, "", "");
      LikeUnique(x.c.u, w, Conv(x, true, w, true, back, "", "").v, sv, sv.t);
    }
  }
}
