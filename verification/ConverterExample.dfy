/**
 A converter and types that meet every assumption of the conversion theorems, so that none of them speaks of
 nothing: a list node with a pointer to the next one and an interface field, converted to its twin. Beside
 them live a string-keyed map type, and a struct with an unexported field that goes into the interface too.
 */
module ConverterExample {
  import opened Wrappers
  import opened ConverterSpec
  import opened ConverterRoundTrip
  import opened ConverterFlags

  // ----- values are finite -----

  ghost function Largest(s: set<nat>): (m: nat)
    ensures forall x :: x in s ==> x <= m
  {
    if s == {} then 0
    else
      var x :| x in s;
      var m := Largest(s - {x});
      assert forall y :: y in s ==> y == x || y in s - {x};
      if x > m then x else m
  }

  /** The height of a value. */
  ghost function Height(v: Value): nat {
    match v
    case VBasic(_, _) => 0
    case VNil(_) => 0
    case VPtr(_, target) => 1 + Height(target)
    case VSlice(_, es) => 1 + Largest(set i | 0 <= i < |es| :: Height(es[i]))
    case VMap(_, m) => 1 + Largest(set k | k in m :: Height(k)) + Largest(set k | k in m :: Height(m[k]))
    case VIface(_, d) => 1 + Height(d)
    case VStruct(_, fs) => 1 + Largest(set n | n in fs :: Height(fs[n]))
  }

  lemma {:induction false} ElementIsLower(v: Value, i: nat)
    requires v.VSlice? && i < |v.elems|
    ensures Height(v.elems[i]) < Height(v)
  {
    var hs := set j | 0 <= j < |v.elems| :: Height(v.elems[j]);
    assert Height(v) == 1 + Largest(hs);
    assert Height(v.elems[i]) in hs;
  }

  lemma {:induction false} EntryIsLower(v: Value, k: Value)
    requires v.VMap? && k in v.m
    ensures Height(k) < Height(v) && Height(v.m[k]) < Height(v)
  {
    var ks, vs := set x | x in v.m :: Height(x), set x | x in v.m :: Height(v.m[x]);
    assert Height(v) == 1 + Largest(ks) + Largest(vs);
    assert Height(k) in ks && Height(v.m[k]) in vs;
  }

  lemma {:induction false} FieldIsLower(v: Value, n: string)
    requires v.VStruct? && n in v.fields
    ensures Height(v.fields[n]) < Height(v)
  {
    var hs := set x | x in v.fields :: Height(v.fields[x]);
    assert Height(v) == 1 + Largest(hs);
    assert Height(v.fields[n]) in hs;
  }

  lemma {:induction false} PartsAreLower(w: Value, v: Value)
    requires Child(w, v)
    ensures Height(w) < Height(v)
  {
    match v
    case VPtr(_, _) =>
    case VIface(_, _) =>
    case VSlice(_, es) =>
      var i :| 0 <= i < |es| && es[i] == w;
      ElementIsLower(v, i);
    case VMap(_, m) =>
      if w in m.Keys {
        EntryIsLower(v, w);
      } else {
        var k :| k in m && m[k] == w;
        EntryIsLower(v, k);
      }
    case VStruct(_, fs) =>
      var n :| n in fs && fs[n] == w;
      FieldIsLower(v, n);
  }

  ghost function Listed(keys: set<Value>): (s: seq<Value>)
    ensures forall k :: k in s <==> k in keys
  {
    if keys == {} then []
    else
      var k :| k in keys;
      Listed(keys - {k}) + [k]
  }

  // ----- the types -----

  /**
   1 and 3 are list nodes with a pointer to the next (2, 4) and an interface field; 5 is the interface, 6 a
   string-keyed map, 7 a struct with an unexported field, 8 a struct with one field. All others are basic.
   */
  function DescOf(t: TypeId): Desc {
    if t == 1 then StructT([FieldDesc("Next", "", 2), FieldDesc("Any", "", 5)])
    else if t == 2 then PtrT(1)
    else if t == 3 then StructT([FieldDesc("Next", "", 4), FieldDesc("Any", "", 5)])
    else if t == 4 then PtrT(3)
    else if t == 5 then IfaceT
    else if t == 6 then MapT(0, 0)
    else if t == 7 then StructT([FieldDesc("hidden", "", 0)])
    else if t == 8 then StructT([FieldDesc("Val", "", 0)])
    else BasicT
  }

  function ZeroOf(t: TypeId): Value {
    if t == 1 then VStruct(1, map["Next" := VNil(2), "Any" := VNil(5)])
    else if t == 3 then VStruct(3, map["Next" := VNil(4), "Any" := VNil(5)])
    else if t == 7 then VStruct(7, map["hidden" := VBasic(0, 0)])
    else if t == 8 then VStruct(8, map["Val" := VBasic(0, 0)])
    else if t == 2 || t == 4 || t == 5 || t == 6 then VNil(t)
    else VBasic(t, 0)
  }

  /** Every type goes into the interface; strings are represented by their lengths. */
  ghost function Types(): Universe {
    Universe(
      DescOf, t => "", ZeroOf,
      (s, d) => s == d, (v, d) => v, (s, d) => false, (v, d) => v, (s, d) => d == 5, t => t == 0,
      (t: TypeId, s: string) => VBasic(t, |s|), s => s != "hidden", (m: map<Value, Value>) => Listed(m.Keys))
  }

  ghost function Bare(): Converter {
    Converter(Types(), map[], map[], {}, map[], map[], map[], None, Height, t => if t == 2 || t == 4 then 1 else 0)
  }

  /** Each node type corresponds to the other; basic type 0, the interface and struct 7 to themselves. */
  predicate Twins(s: TypeId, d: TypeId) {
    (s, d) in [(1, 3), (2, 4), (3, 1), (4, 2), (5, 5), (0, 0), (7, 7)]
  }

  /** A node whose interface field holds a value. */
  function Node(bits: int): Value {
    VStruct(1, map["Next" := VNil(2), "Any" := VIface(5, VBasic(0, bits))])
  }

  lemma {:induction false} FieldsHaveTypes(v: Value)
    requires v.VStruct? && v.t in [1, 3, 7, 8]
    requires v.fields.Keys == if v.t == 7 then {"hidden"} else if v.t == 8 then {"Val"} else {"Next", "Any"}
    requires forall i :: 0 <= i < |DescOf(v.t).fields| ==> DescOf(v.t).fields[i].name in v.fields
    requires forall i :: 0 <= i < |DescOf(v.t).fields| ==>
               HasType(Types(), v.fields[DescOf(v.t).fields[i].name], DescOf(v.t).fields[i].t)
    ensures HasType(Types(), v, v.t)
  {
    var fs := DescOf(v.t).fields;
    forall n ensures n in v.fields <==> Named(fs, n) {
      assert fs[0].name in v.fields;
      if v.t == 1 || v.t == 3 {
        assert fs[0].name == "Next" && fs[1].name == "Any";
      } else {
        assert fs[0].name == if v.t == 7 then "hidden" else "Val";
      }
    }
  }

  lemma {:induction false} NodeHasType(v: Value)
    requires v.VStruct? && (v.t == 1 || v.t == 3) && v.fields.Keys == {"Next", "Any"}
    requires HasType(Types(), v.fields["Next"], v.t + 1) && HasType(Types(), v.fields["Any"], 5)
    ensures HasType(Types(), v, v.t)
  {
    FieldsHaveTypes(v);
  }

  lemma {:induction false} ZeroHasType(t: TypeId)
    ensures HasType(Types(), ZeroOf(t), t)
  {
    if t == 1 || t == 3 {
      NodeHasType(ZeroOf(t));
    } else if t == 7 || t == 8 {
      FieldsHaveTypes(ZeroOf(t));
    }
  }

  lemma {:induction false} BareIsValid()
    ensures Valid(Bare())
  {
    forall v, w | Child(w, v) ensures Height(w) < Height(v) {
      PartsAreLower(w, v);
    }
  }

  lemma {:induction false} TwinFields(r: Rel, s: TypeId, d: TypeId)
    requires (s == 1 && d == 3) || (s == 3 && d == 1)
    requires r(2, 4) && r(4, 2) && r(5, 5)
    ensures FieldsOk(Types(), r, DescOf(s).fields, DescOf(d).fields)
  {
    var fs, gs := DescOf(s).fields, DescOf(d).fields;
    assert |fs| == 2 && |gs| == 2 && fs[0].name == gs[0].name && fs[1].name == gs[1].name && fs[0].name != fs[1].name;
    forall n ensures Named(fs, n) <==> Named(gs, n) {
      assert Named(fs, n) <==> fs[0].name == n || fs[1].name == n;
      assert Named(gs, n) <==> gs[0].name == n || gs[1].name == n;
    }
  }

  ghost predicate RelatesTwins(r: Rel) {
    r(2, 4) && r(4, 2) && r(1, 3) && r(3, 1) && r(5, 5) && r(0, 0)
  }

  lemma {:induction false} TwinsPair(fl: Flags, r: Rel, s: TypeId, d: TypeId)
    requires Twins(s, d) && RelatesTwins(r)
    ensures PairOk(Types(), fl, r, s, d)
  {
    if s == 1 || s == 3 {
      TwinFields(r, s, d);
    } else if s == 7 {
      assert |DescOf(7).fields| == 1 && DescOf(7).fields[0].t == 0;
    }
  }

  lemma {:induction false} TwinsMatch(fl: Flags)
    ensures Matching(Types(), fl, Twins) && Matching(Types(), fl, Inverse(Twins))
  {
    forall s, d | Twins(s, d) ensures PairOk(Types(), fl, Twins, s, d) {
      TwinsPair(fl, Twins, s, d);
    }
    forall s, d | Inverse(Twins)(s, d) ensures PairOk(Types(), fl, Inverse(Twins), s, d) {
      TwinsPair(fl, Inverse(Twins), s, d);
    }
  }

  lemma {:induction false} BareIsPlain()
    ensures Plain(Bare())
  {
    forall t ensures HasType(Types(), ZeroOf(t), t) {
      ZeroHasType(t);
    }
  }

  lemma {:induction false} NamesAreDistinct(t: TypeId)
    ensures DistinctNames(Types(), t)
  {
    if t == 1 || t == 3 {
      var fs := DescOf(t).fields;
      assert |fs| == 2 && |fs[0].name| == 4 && |fs[1].name| == 3;
    } else if t == 7 || t == 8 {
      assert |DescOf(t).fields| == 1;
    }
  }

  lemma {:induction false} BareIsComparable(fl: Flags)
    requires fl.ignoreMissing
    ensures Comparable(Bare(), fl)
  {
    BareIsValid();
    BareIsPlain();
    forall t ensures DistinctNames(Types(), t) {
      NamesAreDistinct(t);
    }
  }

  lemma {:induction false} NodeFits(bits: int)
    ensures HasType(Types(), Node(bits), 1) && DynamicsIn(Twins, Node(bits)) && Exposed(Types(), Node(bits))
  {
    var v := Node(bits);
    assert HasType(Types(), v.fields["Any"], 5);
    NodeHasType(v);
    assert DynamicsIn(Twins, v.fields["Any"]);
    NodeIsExposed(bits);
  }

  lemma {:induction false} NodeIsExposed(bits: int)
    ensures Exposed(Types(), Node(bits))
  {
    assert Exposed(Types(), Node(bits).fields["Any"]);
    assert |"hidden"| == 6 && |"Next"| == 4 && |"Any"| == 3;
  }

  /** The assumptions of the round trip and of the comparison of the two directions hold together, under any names. */
  lemma {:induction false} AssumptionsCanBeMet(fl: Flags, bits: int)
    requires fl.ignoreMissing
    ensures Setup(Ctx(Bare(), fl), Twins) && Matching(Types(), fl, Inverse(Twins)) && Twins(1, 3)
    ensures Comparable(Bare(), fl)
    ensures HasType(Types(), Node(bits), 1) && DynamicsIn(Twins, Node(bits)) && Exposed(Types(), Node(bits))
  {
    BareSetup(fl);
    TwinsMatch(fl);
    BareIsComparable(fl);
    NodeFits(bits);
  }

  // ----- an unexported field -----

  function Hidden(bits: int): Value {
    VStruct(7, map["hidden" := VBasic(0, bits)])
  }

  lemma {:induction false} HiddenFits(bits: int)
    ensures HasType(Types(), Hidden(bits), 7) && DynamicsIn(Twins, Hidden(bits)) && !Exposed(Types(), Hidden(bits))
  {
    var sv := Hidden(bits);
    FieldsHaveTypes(sv);
    assert "hidden" in sv.fields && !Types().exported("hidden");
  }

  lemma {:induction false} BareSetup(fl: Flags)
    ensures Setup(Ctx(Bare(), fl), Twins)
  {
    BareIsValid();
    BareIsPlain();
    TwinsMatch(fl);
  }

  /** A struct with an unexported field cannot be converted even to its own type, whatever the flags. */
  lemma {:induction false} HiddenFieldFails(fl: Flags, bits: int)
    ensures Setup(Ctx(Bare(), fl), Twins) && Twins(7, 7) && HasType(Types(), Hidden(bits), 7)
    ensures Conv(Ctx(Bare(), fl), true, Hidden(bits), true, ZeroOf(7), "", "") == Failed
  {
    BareSetup(fl);
    HiddenFits(bits);
    ZeroHasType(7);
    RefusedUnlessExposed(Ctx(Bare(), fl), Twins, Hidden(bits), ZeroOf(7));
  }

  lemma {:induction false} RefusedUnlessExposed(x: Ctx, r: Rel, sv: Value, dv: Value)
    requires Setup(x, r) && r(sv.t, dv.t) && HasType(x.c.u, sv, sv.t) && HasType(x.c.u, dv, dv.t) && DynamicsIn(r, sv)
    requires !Exposed(x.c.u, sv)
    ensures Conv(x, true, sv, true, dv, "", "") == Failed
  {
    ConvCarries(x, r, true, sv, dv, "", "");
  }

  // ----- a map into a struct -----

  /** The one entry of the map is the one field of struct 8. */
  function OneEntry(bits: int): Value {
    VMap(6, map[VBasic(0, 3) := VBasic(0, bits)])
  }

  lemma {:induction false} EntryConverts(x: Ctx, bits: int, stag: string, dtag: string)
    requires x.c == Bare() && Valid(x.c)
    ensures Conv(x, false, VBasic(0, bits), true, VBasic(0, 0), stag, dtag) == Done(VBasic(0, bits))
  {
  }

  lemma {:induction false} FromDestSucceeds(x: Ctx, bits: int)
    requires x.c == Bare() && Valid(x.c) && !x.fl.sourceToDest
    ensures KVFrom(x, false, OneEntry(bits), 8, ["Val"], 0, KV(ZeroOf(8).fields, "", "")).KVDone?
  {
    var sv, kv := OneEntry(bits), KV(ZeroOf(8).fields, "", "");
    assert |"Val"| == 3;
    assert KVValue(Types(), sv, "Val") == Some(VBasic(0, bits));
    assert CheckField(x, false, sv, "Val", kv) == Checked(false, KVDone(kv));
    EntryConverts(x, bits, "", TagOf(Types(), 8, "Val"));
    assert KVStep(x, false, sv, 8, "Val", kv).KVDone?;
  }

  lemma {:induction false} ConvIsStruct(x: Ctx, sv: Value, dv: Value)
    requires Valid(x.c) && Plain(x.c) && x.c.u.name(dv.t) == x.c.u.name(sv.t) && x.c.u.desc(dv.t).StructT? && sv.VMap?
    ensures Conv(x, true, sv, true, dv, "", "") == StructConv(x, true, sv, dv)
  {
    PlainConv(x, true, sv, true, dv, "", "");
  }

  lemma {:induction false} StructFromDest(x: Ctx, bits: int)
    requires x.c == Bare() && Valid(x.c) && !x.fl.sourceToDest
    ensures StructConv(x, true, OneEntry(bits), ZeroOf(8)).Done?
  {
    assert DescOf(8).fields == [FieldDesc("Val", "", 0)];
    assert FieldNames(DescOf(8).fields) == ["Val"];
    FromDestSucceeds(x, bits);
  }

  lemma {:induction false} StructFromSource(x: Ctx, bits: int)
    requires x.c == Bare() && Valid(x.c) && x.fl.sourceToDest
    ensures StructConv(x, true, OneEntry(bits), ZeroOf(8)) == Panicked
  {
    assert Keys(Types(), OneEntry(bits)).None?;
  }

  /** From the destination the entry lands in the field; from the source the listing of the keys panics. */
  lemma {:induction false} MapIntoStructDisagrees(fl: Flags, bits: int)
    ensures Valid(Bare())
    ensures Conv(FromDest(Bare(), fl), true, OneEntry(bits), true, ZeroOf(8), "", "").Done?
    ensures Conv(FromSource(Bare(), fl), true, OneEntry(bits), true, ZeroOf(8), "", "") == Panicked
  {
    BareIsValid();
    BareIsPlain();
    ConvIsStruct(FromDest(Bare(), fl), OneEntry(bits), ZeroOf(8));
    ConvIsStruct(FromSource(Bare(), fl), OneEntry(bits), ZeroOf(8));
    StructFromDest(FromDest(Bare(), fl), bits);
    StructFromSource(FromSource(Bare(), fl), bits);
  }
}
